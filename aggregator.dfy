/**
 * Gathering the channel dictionaries: the subscriptions listed in the
 * subscription file (`load_subscribe_sources`, one fetch per valid URL) and
 * the three sources `collect_all_sources` merges with `dict.update` in the
 * order local file, subscriptions, template file.
 */
module Aggregator {
  import opened Strings
  import opened Utility
  import opened SourceMaps
  import opened TextParser
  import opened M3uParser

  /** The outcome of one GET of a subscription URL; `Failure` is a timeout or any other exception. */
  datatype Response = Response(status: int, body: string) | Failure

  /** A URL whose text is read as an extended M3U playlist rather than delimited text. */
  predicate IsPlaylistUrl(url: string)
  {
    EndsWith(url, ".m3u") || EndsWith(url, ".m3u8")
  }

  /** The dictionary one subscription yields: parsed on status 200, empty otherwise. */
  function FetchedSources(url: string, r: Response): SourceMap
  {
    match r
    case Response(status, body) =>
      if status == 200 then
        if IsPlaylistUrl(url) then M3uSources(body) else TextSources(body)
      else map[]
    case Failure => map[]
  }

  /** `fetch_subscribe_content(url)` once the response (or the failure) is known. */
  method FetchSubscribeContent(url: string, r: Response) returns (sources: SourceMap)
    ensures sources == FetchedSources(url, r)
  {
    sources := map[];
    if r.Response? && r.status == 200 {
      if EndsWith(url, ".m3u") || EndsWith(url, ".m3u8") {
        sources := ParseM3uContent(r.body);
      } else {
        sources := ParseTextContent(r.body);
      }
    }
  }

  /**
   * The subscription list: each line stripped, keeping those non-empty after
   * stripping whose raw text does not start with `#`.
   */
  function SubscriptionUrls(lines: seq<string>): (urls: seq<string>)
    ensures |urls| <= |lines|
  {
    if lines == [] then []
    else
      var line := lines[|lines| - 1];
      SubscriptionUrls(lines[..|lines| - 1]) + (if Strip(line) != [] && !StartsWith(line, "#") then [Strip(line)] else [])
  }

  /**
   * A URL is listed exactly when some line strips to it, it is non-empty,
   * and that line's raw text does not start with `#` (an indented `#` line
   * is listed); every listed URL is stripped.
   */
  lemma {:induction false} SubscriptionUrlsAre(lines: seq<string>, u: string)
    ensures u in SubscriptionUrls(lines) <==>
      exists j :: 0 <= j < |lines| && Strip(lines[j]) == u && u != [] && !StartsWith(lines[j], "#")
    ensures forall k :: 0 <= k < |SubscriptionUrls(lines)| ==> IsStripped(SubscriptionUrls(lines)[k])
    decreases |lines|
  {
    if lines != [] {
      var init, last := lines[..|lines| - 1], lines[|lines| - 1];
      SubscriptionUrlsAre(init, u);
      var before := SubscriptionUrls(init);
      var added := if Strip(last) != [] && !StartsWith(last, "#") then [Strip(last)] else [];
      assert SubscriptionUrls(lines) == before + added;
      if exists j :: 0 <= j < |lines| && Strip(lines[j]) == u && u != [] && !StartsWith(lines[j], "#") {
        var j :| 0 <= j < |lines| && Strip(lines[j]) == u && u != [] && !StartsWith(lines[j], "#");
        if j < |lines| - 1 {
          assert init[j] == lines[j];
        }
      }
      if exists j :: 0 <= j < |init| && Strip(init[j]) == u && u != [] && !StartsWith(init[j], "#") {
        var j :| 0 <= j < |init| && Strip(init[j]) == u && u != [] && !StartsWith(init[j], "#");
        assert lines[j] == init[j];
      }
      forall k | 0 <= k < |before + added| ensures IsStripped((before + added)[k]) {
        if k >= |before| {
          assert (before + added)[k] == Strip(last);
        } else {
          assert (before + added)[k] == before[k];
        }
      }
    }
  }

  /** The fetch task of one subscription URL, if it is valid. */
  function TaskOf(fetch: string -> Response, u: string): seq<SourceMap>
  {
    if IsValidUrl(u) then [FetchedSources(u, fetch(u))] else []
  }

  /** The dictionaries of the fetch tasks, one per valid subscription URL, in list order. */
  function TaskResults(urls: seq<string>, fetch: string -> Response): seq<SourceMap>
  {
    FlatMap(urls, u => TaskOf(fetch, u))
  }

  /** The dictionary `load_subscribe_sources` returns. */
  function SubscribeSources(listExists: bool, listContent: string, fetch: string -> Response): SourceMap
  {
    if listExists then Overlay(TaskResults(SubscriptionUrls(Split(listContent, '\n')), fetch)) else map[]
  }

  /**
   * `load_subscribe_sources()` with the subscription file given by whether
   * it exists and its text, and every GET given by `fetch`. The fetches run
   * one after the other here; their results are merged in task order.
   */
  method LoadSubscribeSources(listExists: bool, listContent: string, fetch: string -> Response)
    returns (sources: SourceMap)
    ensures sources == SubscribeSources(listExists, listContent, fetch)
  {
    sources := map[];
    if !listExists {
      return;
    }
    var urls := SubscribeList(listContent);
    if urls == [] {
      return;
    }
    var i := 0;
    while i < |urls|
      invariant 0 <= i <= |urls|
      invariant sources == Overlay(TaskResults(urls[..i], fetch))
    {
      sources := AddTask(sources, urls[i], fetch, TaskResults(urls[..i], fetch));
      TaskStep(urls, i, fetch);
      i := i + 1;
    }
    assert urls[..i] == urls;
  }

  /** One fetch task: a valid URL is fetched and its dictionary merged in; an invalid one is skipped. */
  method AddTask(sources: SourceMap, u: string, fetch: string -> Response, ghost done: seq<SourceMap>)
    returns (next: SourceMap)
    requires sources == Overlay(done)
    ensures next == Overlay(done + TaskOf(fetch, u))
  {
    next := sources;
    if IsValidUrl(u) {
      var result := FetchSubscribeContent(u, fetch(u));
      next := next + result;
      assert (done + [result])[..|done|] == done;
    } else {
      assert done + [] == done;
    }
  }

  lemma TaskStep(urls: seq<string>, i: nat, fetch: string -> Response)
    requires i < |urls|
    ensures TaskResults(urls[..i + 1], fetch) == TaskResults(urls[..i], fetch) + TaskOf(fetch, urls[i])
  {
    assert urls[..i + 1][..i] == urls[..i];
  }

  /** The list comprehension over the subscription file's lines. */
  method SubscribeList(content: string) returns (urls: seq<string>)
    ensures urls == SubscriptionUrls(Split(content, '\n'))
  {
    var lines := Split(content, '\n');
    urls := [];
    var i := 0;
    while i < |lines|
      invariant 0 <= i <= |lines|
      invariant urls == SubscriptionUrls(lines[..i])
    {
      assert lines[..i + 1][..i] == lines[..i];
      if Strip(lines[i]) != [] && !StartsWith(lines[i], "#") {
        urls := urls + [Strip(lines[i])];
      }
      i := i + 1;
    }
    assert lines[..i] == lines;
  }

  /** The switches of the configuration `collect_all_sources` reads. */
  datatype Settings = Settings(openLocal: bool, openSubscribe: bool, openUpdate: bool)

  /** What each source contributes, in merge order: local file, subscriptions, template file. */
  function Layers(
    settings: Settings, localContent: string,
    listExists: bool, listContent: string, fetch: string -> Response,
    templateExists: bool, templateContent: string): (ls: seq<SourceMap>)
    ensures |ls| == 3
  {
    [ if settings.openLocal then TextSources(localContent) else map[],
      if settings.openSubscribe then SubscribeSources(listExists, listContent, fetch) else map[],
      if settings.openUpdate && templateExists then TextSources(templateContent) else map[] ]
  }

  /**
   * `collect_all_sources()`, with each file given by its text (a missing or
   * unreadable file reads as empty), the subscription file by whether it
   * exists and its text, and the GETs by `fetch`.
   */
  method CollectAllSources(
    settings: Settings, localContent: string,
    listExists: bool, listContent: string, fetch: string -> Response,
    templateExists: bool, templateContent: string)
    returns (sources: SourceMap)
    ensures sources == Overlay(Layers(settings, localContent, listExists, listContent, fetch, templateExists, templateContent))
  {
    sources := map[];
    if settings.openLocal {
      var local := LoadTextSources(localContent);
      sources := sources + local;
    }
    ghost var afterLocal := sources;
    UpdateIf(map[], settings.openLocal, TextSources(localContent), afterLocal);
    if settings.openSubscribe {
      var subscribed := LoadSubscribeSources(listExists, listContent, fetch);
      sources := sources + subscribed;
    }
    ghost var afterSubscribe := sources;
    UpdateIf(afterLocal, settings.openSubscribe, SubscribeSources(listExists, listContent, fetch), afterSubscribe);
    if settings.openUpdate && templateExists {
      var template := LoadTextSources(templateContent);
      sources := sources + template;
    }
    UpdateIf(afterSubscribe, settings.openUpdate && templateExists, TextSources(templateContent), sources);
    OverlayOfThree(Layers(settings, localContent, listExists, listContent, fetch, templateExists, templateContent));
  }

  /** A conditional `update` is an update with an empty dictionary when it is skipped. */
  lemma UpdateIf(before: SourceMap, on: bool, layer: SourceMap, after: SourceMap)
    requires after == if on then before + layer else before
    ensures after == before + (if on then layer else map[])
  {
    if !on {
      MergeEmpty(before);
    }
  }

  lemma OverlayOfThree(ls: seq<SourceMap>)
    requires |ls| == 3
    ensures Overlay(ls) == map[] + ls[0] + ls[1] + ls[2]
  {
    assert ls[..2][..1] == ls[..1];
    assert ls[..1][..0] == [];
    assert Overlay(ls[..1]) == map[] + ls[0];
    assert Overlay(ls[..2]) == Overlay(ls[..1]) + ls[1];
  }

  /** The collected channels are those of the enabled sources together. */
  lemma CollectedKeys(ls: seq<SourceMap>, c: string)
    requires |ls| == 3
    ensures c in Overlay(ls) <==> c in ls[0] || c in ls[1] || c in ls[2]
  {
    OverlayKeys(ls, c);
  }

  /**
   * A channel's collected list comes wholly from the last source that has
   * it: the template file over the subscriptions over the local file.
   */
  lemma CollectedPrecedence(ls: seq<SourceMap>, c: string)
    requires |ls| == 3
    ensures c in ls[2] ==> c in Overlay(ls) && Overlay(ls)[c] == ls[2][c]
    ensures c !in ls[2] && c in ls[1] ==> c in Overlay(ls) && Overlay(ls)[c] == ls[1][c]
    ensures c !in ls[2] && c !in ls[1] && c in ls[0] ==> c in Overlay(ls) && Overlay(ls)[c] == ls[0][c]
  {
    if c in ls[2] {
      OverlayLastWins(ls, 2, c);
    } else if c in ls[1] {
      OverlayLastWins(ls, 1, c);
    } else if c in ls[0] {
      OverlayLastWins(ls, 0, c);
    }
  }

  /**
   * Subscriptions merge with the same rule: a channel is present exactly
   * when some task's dictionary has it, with the list of the last such task.
   */
  lemma SubscriptionMerge(results: seq<SourceMap>, i: nat, c: string)
    requires i < |results| && c in results[i]
    requires forall j :: i < j < |results| ==> c !in results[j]
    ensures c in Overlay(results) && Overlay(results)[c] == results[i][c]
  {
    OverlayLastWins(results, i, c);
  }

  /** A subscription that fails or is rejected contributes nothing to the merge. */
  lemma FailedTaskIgnored(before: seq<string>, url: string, after: seq<string>, fetch: string -> Response)
    requires !IsValidUrl(url) || fetch(url) == Failure || fetch(url).status != 200
    ensures Overlay(TaskResults(before + [url] + after, fetch)) == Overlay(TaskResults(before + after, fetch))
  {
    FlatMapConcat(before + [url], after, u => TaskOf(fetch, u));
    FlatMapConcat(before, after, u => TaskOf(fetch, u));
    assert (before + [url])[..|before|] == before;
    var prefix := TaskResults(before, fetch);
    if IsValidUrl(url) {
      assert TaskResults(before + [url], fetch) == prefix + [map[]];
      OverlayEmpty(prefix, TaskResults(after, fetch));
      assert prefix + [map[]] + TaskResults(after, fetch) == (prefix + [map[]]) + TaskResults(after, fetch);
    } else {
      assert TaskResults(before + [url], fetch) == prefix + [];
      assert prefix + [] == prefix;
    }
  }
}
