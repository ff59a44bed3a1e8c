/**
 * `TVSourceUpdater.filter_sources`: each channel keeps, in order, those of
 * its first `urls_limit` URLs that the liveness probe accepts; a channel
 * left with none is dropped. The probe (`is_valid_source`, an HTTP HEAD
 * that answers false on any error or timeout) is the parameter `probe`.
 */
module SourceFilter {
  import opened SourceMaps

  /** Python's `urls[:limit]`: a negative limit counts from the end. */
  function Take(urls: seq<string>, limit: int): (r: seq<string>)
    ensures r <= urls
    ensures limit >= 0 ==> |r| == if limit < |urls| then limit else |urls|
    ensures limit < 0 ==> |r| == if -limit < |urls| then |urls| + limit else 0
  {
    if limit >= 0 then
      if limit < |urls| then urls[..limit] else urls
    else if -limit < |urls| then urls[..|urls| + limit]
    else []
  }

  /** The URLs the probe accepts, in their order. */
  function Survivors(urls: seq<string>, probe: string -> bool): seq<string>
  {
    if urls == [] then []
    else Survivors(urls[..|urls| - 1], probe) + (if probe(urls[|urls| - 1]) then [urls[|urls| - 1]] else [])
  }

  /** The list `filter_sources` keeps for one channel. */
  function Kept(urls: seq<string>, limit: int, probe: string -> bool): seq<string>
  {
    Survivors(Take(urls, limit), probe)
  }

  /** The dictionary `filter_sources` returns. */
  function Filtered(m: SourceMap, limit: int, probe: string -> bool): SourceMap
  {
    map c | c in m && Kept(m[c], limit, probe) != [] :: Kept(m[c], limit, probe)
  }

  /** `filter_sources(sources)`, the channels taken one at a time. */
  method FilterSources(sources: SourceMap, limit: int, probe: string -> bool) returns (filtered: SourceMap)
    ensures filtered == Filtered(sources, limit, probe)
  {
    filtered := map[];
    var remaining := sources.Keys;
    while remaining != {}
      invariant remaining <= sources.Keys
      invariant forall c :: c in filtered <==> c in sources && c !in remaining && Kept(sources[c], limit, probe) != []
      invariant forall c :: c in filtered ==> filtered[c] == Kept(sources[c], limit, probe)
      decreases remaining
    {
      var channel :| channel in remaining;
      var validUrls := CheckUrls(sources[channel], limit, probe);
      if validUrls != [] {
        filtered := filtered[channel := validUrls];
      }
      remaining := remaining - {channel};
    }
  }

  /** The URL loop for one channel: cap the list, then keep what the probe accepts. */
  method CheckUrls(urls: seq<string>, limit: int, probe: string -> bool) returns (validUrls: seq<string>)
    ensures validUrls == Kept(urls, limit, probe)
  {
    var limited: seq<string>;
    if limit >= 0 {
      limited := if limit < |urls| then urls[..limit] else urls;
    } else {
      limited := if -limit < |urls| then urls[..|urls| + limit] else [];
    }
    validUrls := [];
    var i := 0;
    while i < |limited|
      invariant 0 <= i <= |limited|
      invariant validUrls == Survivors(limited[..i], probe)
    {
      assert limited[..i + 1][..i] == limited[..i];
      if probe(limited[i]) {
        validUrls := validUrls + [limited[i]];
      }
      i := i + 1;
    }
    assert limited[..i] == limited;
  }

  /** `ys` is `xs` with some elements left out, the rest in their order. */
  predicate SubsequenceOf(ys: seq<string>, xs: seq<string>)
    decreases |xs|
  {
    || ys == []
    || (&& xs != []
        && (|| (ys[|ys| - 1] == xs[|xs| - 1] && SubsequenceOf(ys[..|ys| - 1], xs[..|xs| - 1]))
            || SubsequenceOf(ys, xs[..|xs| - 1])))
  }

  /** The survivors keep their order: they are a subsequence of the input. */
  lemma {:induction false} SurvivorsInOrder(urls: seq<string>, probe: string -> bool)
    ensures SubsequenceOf(Survivors(urls, probe), urls)
    decreases |urls|
  {
    if urls != [] {
      var init := urls[..|urls| - 1];
      var s := Survivors(init, probe);
      SurvivorsInOrder(init, probe);
      if probe(urls[|urls| - 1]) {
        assert (s + [urls[|urls| - 1]])[..|s|] == s;
      } else {
        assert s + [] == s;
      }
    }
  }

  /** A URL survives exactly when it is in the input and the probe accepts it. */
  lemma {:induction false} SurvivorsExactly(urls: seq<string>, probe: string -> bool, u: string)
    ensures u in Survivors(urls, probe) <==> u in urls && probe(u)
    decreases |urls|
  {
    if urls != [] {
      var init := urls[..|urls| - 1];
      SurvivorsExactly(init, probe, u);
      assert urls == init + [urls[|urls| - 1]];
    }
  }

  /**
   * Each URL survives as many times as it occurs in the input when the probe
   * accepts it, and not at all otherwise: duplicates are kept.
   */
  lemma {:induction false} SurvivorsCount(urls: seq<string>, probe: string -> bool, u: string)
    ensures multiset(Survivors(urls, probe))[u] == if probe(u) then multiset(urls)[u] else 0
    decreases |urls|
  {
    if urls != [] {
      var init, last := urls[..|urls| - 1], urls[|urls| - 1];
      SurvivorsCount(init, probe, u);
      assert urls == init + [last];
      assert multiset(urls) == multiset(init) + multiset{last};
    }
  }

  /** There are never more survivors than inputs. */
  lemma {:induction false} SurvivorsShorter(urls: seq<string>, probe: string -> bool)
    ensures |Survivors(urls, probe)| <= |urls|
    decreases |urls|
  {
    if urls != [] {
      SurvivorsShorter(urls[..|urls| - 1], probe);
    }
  }

  /**
   * A second pass of the probe removes nothing. This holds because the probe
   * is a fixed function here; the program probes over the network again and
   * may get other answers.
   */
  lemma {:induction false} SurvivorsIdempotent(urls: seq<string>, probe: string -> bool)
    ensures Survivors(Survivors(urls, probe), probe) == Survivors(urls, probe)
    decreases |urls|
  {
    if urls != [] {
      var init := urls[..|urls| - 1];
      var last := urls[|urls| - 1];
      var s := Survivors(init, probe);
      SurvivorsIdempotent(init, probe);
      if probe(last) {
        assert (s + [last])[..|s|] == s;
      } else {
        assert s + [] == s;
      }
    }
  }

  /**
   * Every kept list is a non-empty subsequence, in order, of the channel's
   * first `limit` URLs that holds each accepted URL as often as they do and
   * no other, and is no longer than `limit`; the kept channels are among the
   * input's. Order and counts together fix the list.
   */
  lemma FilteredLists(m: SourceMap, limit: int, probe: string -> bool, c: string)
    ensures c in Filtered(m, limit, probe) ==> c in m
    ensures c in Filtered(m, limit, probe) ==>
      var r := Filtered(m, limit, probe)[c];
      && r != []
      && SubsequenceOf(r, Take(m[c], limit))
      && (forall u :: u in r <==> u in Take(m[c], limit) && probe(u))
      && (forall u :: multiset(r)[u] == if probe(u) then multiset(Take(m[c], limit))[u] else 0)
      && (limit >= 0 ==> |r| <= limit)
  {
    if c in Filtered(m, limit, probe) {
      var t := Take(m[c], limit);
      SurvivorsInOrder(t, probe);
      SurvivorsShorter(t, probe);
      forall u ensures u in Survivors(t, probe) <==> u in t && probe(u) {
        SurvivorsExactly(t, probe, u);
      }
      forall u ensures multiset(Survivors(t, probe))[u] == if probe(u) then multiset(t)[u] else 0 {
        SurvivorsCount(t, probe, u);
      }
    }
  }

  /** A channel is dropped exactly when the probe accepts none of its first `limit` URLs. */
  lemma FilteredDrops(m: SourceMap, limit: int, probe: string -> bool, c: string)
    requires c in m
    ensures c !in Filtered(m, limit, probe) <==> forall u :: u in Take(m[c], limit) ==> !probe(u)
  {
    var t := Take(m[c], limit);
    forall u ensures u in Survivors(t, probe) <==> u in t && probe(u) {
      SurvivorsExactly(t, probe, u);
    }
    if Survivors(t, probe) != [] {
      assert Survivors(t, probe)[0] in Survivors(t, probe);
    }
  }

  /**
   * With a non-negative limit, filtering an already filtered dictionary
   * changes nothing, for a probe that answers the same each time; the
   * program's network probe may not.
   */
  lemma FilterIdempotent(m: SourceMap, limit: int, probe: string -> bool)
    requires limit >= 0
    ensures Filtered(Filtered(m, limit, probe), limit, probe) == Filtered(m, limit, probe)
  {
    var f := Filtered(m, limit, probe);
    forall c | c in f
      ensures Kept(f[c], limit, probe) == f[c]
    {
      var t := Take(m[c], limit);
      SurvivorsShorter(t, probe);
      assert Take(f[c], limit) == f[c];
      SurvivorsIdempotent(t, probe);
    }
  }
}
