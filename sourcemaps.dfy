/**
 * The value every stage of the updater passes on: a dictionary from channel
 * name to the list of its stream URLs, built by appending parsed entries and
 * combined with `dict.update`.
 */
module SourceMaps {
  import opened Ordering

  /** `Dict[str, List[str]]`: channel name to its URLs, in the order they were added. */
  type SourceMap = map<string, seq<string>>

  /** One accepted `channel,url` pair, as the parsers produce them. */
  datatype Entry = Entry(channel: string, url: string)

  /** `sources.setdefault(channel, []).append(url)`, written out as the parsers do it. */
  function Append(m: SourceMap, e: Entry): (r: SourceMap)
    ensures r.Keys == m.Keys + {e.channel}
    ensures r[e.channel] == (if e.channel in m then m[e.channel] else []) + [e.url]
    ensures forall c :: c in m && c != e.channel ==> r[c] == m[c]
  {
    m[e.channel := (if e.channel in m then m[e.channel] else []) + [e.url]]
  }

  /** Creating the empty list first and appending to it afterwards is `Append`. */
  lemma AppendInTwoSteps(m: SourceMap, e: Entry, next: SourceMap)
    requires var created := if e.channel in m then m else m[e.channel := []];
      next == created[e.channel := created[e.channel] + [e.url]]
    ensures next == Append(m, e)
  {
  }

  /** The dictionary built by appending the entries one after the other to an empty one. */
  function Collect(es: seq<Entry>): SourceMap
  {
    if es == [] then map[] else Append(Collect(es[..|es| - 1]), es[|es| - 1])
  }

  /** One more entry is one more `Append`. */
  lemma CollectSnoc(es: seq<Entry>, e: Entry)
    ensures Collect(es + [e]) == Append(Collect(es), e)
  {
    assert (es + [e])[..|es|] == es;
  }

  /** The URLs of the entries for channel `c`, in entry order. */
  function UrlsOf(es: seq<Entry>, c: string): seq<string>
  {
    if es == [] then []
    else UrlsOf(es[..|es| - 1], c) + (if es[|es| - 1].channel == c then [es[|es| - 1].url] else [])
  }

  /**
   * A channel is a key of the collected dictionary exactly when some entry
   * names it, and its list is that channel's URLs in entry order.
   */
  lemma {:induction false} CollectAt(es: seq<Entry>, c: string)
    ensures c in Collect(es) <==> UrlsOf(es, c) != []
    ensures c in Collect(es) ==> Collect(es)[c] == UrlsOf(es, c)
    decreases |es|
  {
    if es != [] {
      CollectAt(es[..|es| - 1], c);
    }
  }

  /** Each URL listed for `c` comes from an entry pairing `c` with it. */
  lemma {:induction false} UrlsOfEntries(es: seq<Entry>, c: string, u: string)
    requires u in UrlsOf(es, c)
    ensures Entry(c, u) in es
    decreases |es|
  {
    var init := es[..|es| - 1];
    if u in UrlsOf(init, c) {
      UrlsOfEntries(init, c, u);
      assert forall e :: e in init ==> e in es;
    } else {
      assert es[|es| - 1] == Entry(c, u);
    }
  }

  /** Every list the parsers build holds at least one URL. */
  predicate NonEmptyLists(m: SourceMap) {
    forall c :: c in m ==> m[c] != []
  }

  lemma CollectNonEmpty(es: seq<Entry>)
    ensures NonEmptyLists(Collect(es))
  {
    forall c | c in Collect(es) ensures Collect(es)[c] != [] {
      CollectAt(es, c);
    }
  }

  /** The URLs of channel `c` are the URLs of the entries naming `c`, in order. */
  lemma {:induction false} UrlsOfConcat(xs: seq<Entry>, ys: seq<Entry>, c: string)
    ensures UrlsOf(xs + ys, c) == UrlsOf(xs, c) + UrlsOf(ys, c)
    decreases |ys|
  {
    if ys == [] {
      assert xs + ys == xs;
    } else {
      var zs := xs + ys;
      assert zs[..|zs| - 1] == xs + ys[..|ys| - 1];
      UrlsOfConcat(xs, ys[..|ys| - 1], c);
    }
  }

  /** What `f` draws from each item, item after item. */
  function FlatMap<T, U>(xs: seq<T>, f: T -> seq<U>): seq<U>
  {
    if xs == [] then [] else FlatMap(xs[..|xs| - 1], f) + f(xs[|xs| - 1])
  }

  /** What consecutive groups of items yield is what each group yields, in order. */
  lemma {:induction false} FlatMapConcat<T, U>(xs: seq<T>, ys: seq<T>, f: T -> seq<U>)
    ensures FlatMap(xs + ys, f) == FlatMap(xs, f) + FlatMap(ys, f)
    decreases |ys|
  {
    if ys == [] {
      assert xs + ys == xs;
    } else {
      var zs := xs + ys;
      assert zs[..|zs| - 1] == xs + ys[..|ys| - 1];
      FlatMapConcat(xs, ys[..|ys| - 1], f);
    }
  }

  /** Entries that each item yields with property `P` give a flat map all of whose entries have it. */
  lemma {:induction false} FlatMapAll<T>(xs: seq<T>, f: T -> seq<Entry>, P: Entry -> bool)
    requires forall x, e :: e in f(x) ==> P(e)
    ensures forall k :: 0 <= k < |FlatMap(xs, f)| ==> P(FlatMap(xs, f)[k])
    decreases |xs|
  {
    if xs != [] {
      FlatMapAll(xs[..|xs| - 1], f, P);
      var a, b := FlatMap(xs[..|xs| - 1], f), f(xs[|xs| - 1]);
      forall k | 0 <= k < |a + b| ensures P((a + b)[k]) {
        if k >= |a| {
          assert (a + b)[k] == b[k - |a|];
          assert b[k - |a|] in b;
        }
      }
    }
  }

  /** `a.update(b)` for each dictionary in turn, starting from an empty one. */
  function Overlay(ms: seq<SourceMap>): SourceMap
  {
    if ms == [] then map[] else Overlay(ms[..|ms| - 1]) + ms[|ms| - 1]
  }

  /** The merged keys are the union of the keys of the merged dictionaries. */
  lemma {:induction false} OverlayKeys(ms: seq<SourceMap>, c: string)
    ensures c in Overlay(ms) <==> exists i :: 0 <= i < |ms| && c in ms[i]
    decreases |ms|
  {
    if ms != [] {
      var init := ms[..|ms| - 1];
      OverlayKeys(init, c);
      if c in Overlay(ms) && c !in ms[|ms| - 1] {
        var i :| 0 <= i < |init| && c in init[i];
        assert c in ms[i];
      }
      if exists i :: 0 <= i < |ms| && c in ms[i] {
        var i :| 0 <= i < |ms| && c in ms[i];
        if i < |ms| - 1 {
          assert c in init[i];
        }
      }
    }
  }

  /**
   * The last dictionary that holds a channel decides its list: the lists of
   * earlier dictionaries are replaced, never extended.
   */
  lemma {:induction false} OverlayLastWins(ms: seq<SourceMap>, i: nat, c: string)
    requires i < |ms| && c in ms[i]
    requires forall j :: i < j < |ms| ==> c !in ms[j]
    ensures c in Overlay(ms) && Overlay(ms)[c] == ms[i][c]
    decreases |ms|
  {
    if i < |ms| - 1 {
      var init := ms[..|ms| - 1];
      OverlayLastWins(init, i, c);
    }
  }

  /** Merging in two batches is merging once: the second batch overrides the first. */
  lemma {:induction false} OverlayConcat(xs: seq<SourceMap>, ys: seq<SourceMap>)
    ensures Overlay(xs + ys) == Overlay(xs) + Overlay(ys)
    decreases |ys|
  {
    if ys == [] {
      assert xs + ys == xs;
      MergeEmpty(Overlay(xs));
    } else {
      var zs := xs + ys;
      assert zs[..|zs| - 1] == xs + ys[..|ys| - 1];
      OverlayConcat(xs, ys[..|ys| - 1]);
      MergeAssociative(Overlay(xs), Overlay(ys[..|ys| - 1]), ys[|ys| - 1]);
    }
  }

  lemma MergeEmpty(a: SourceMap)
    ensures a + map[] == a
  {
  }

  lemma MergeAssociative(a: SourceMap, b: SourceMap, d: SourceMap)
    ensures (a + b) + d == a + (b + d)
  {
  }

  /** A source that yields nothing (a failed fetch, a missing file) leaves the merge unchanged. */
  lemma OverlayEmpty(xs: seq<SourceMap>, ys: seq<SourceMap>)
    ensures Overlay(xs + [map[]] + ys) == Overlay(xs + ys)
  {
    OverlayConcat(xs + [map[]], ys);
    assert (xs + [map[]])[..|xs|] == xs;
    MergeEmpty(Overlay(xs));
    OverlayConcat(xs, ys);
  }

  /** Sum of the list lengths of the channels `ks`, taken in that order. */
  function SumLengths(m: SourceMap, ks: seq<string>): nat
    requires forall k :: k in ks ==> k in m
  {
    if ks == [] then 0 else SumLengths(m, ks[..|ks| - 1]) + |m[ks[|ks| - 1]]|
  }

  /** `sum(len(urls) for urls in sources.values())`. */
  function TotalUrls(m: SourceMap): nat
  {
    SumLengths(m, SortedNames(m.Keys))
  }
}
