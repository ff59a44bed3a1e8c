/**
 * `TVSourceUpdater.generate_result`: an optional five-line header, then one
 * `channel,url` line per URL, channels in ascending name order and each
 * channel's URLs in list order, joined with newlines.
 */
module ResultWriter {
  import opened Wrappers
  import opened Strings
  import opened Decimal
  import opened Ordering
  import opened Utility
  import opened SourceMaps
  import opened TextParser

  const Title: string := "# 直播源更新结果"
  const TimePrefix: string := "# 更新时间: "
  const ChannelsPrefix: string := "# 频道数量: "
  const UrlsPrefix: string := "# 总URL数: "

  /** The header written when `open_update_time` is set; the time of day is the parameter `timestamp`. */
  function Header(m: SourceMap, timestamp: string): (h: seq<string>)
    ensures |h| == 5
  {
    [Title, TimePrefix + timestamp, ChannelsPrefix + ToDecimal(|m|), UrlsPrefix + ToDecimal(TotalUrls(m)), ""]
  }

  /** The output line of one entry. */
  function EntryLine(e: Entry): string
  {
    e.channel + "," + e.url
  }

  /** The output lines of entries, one each, in order. */
  function Lines(es: seq<Entry>): (ls: seq<string>)
    ensures |ls| == |es|
  {
    if es == [] then [] else Lines(es[..|es| - 1]) + [EntryLine(es[|es| - 1])]
  }

  /** The entries of one channel, in list order. */
  function ChannelEntries(c: string, urls: seq<string>): (es: seq<Entry>)
    ensures |es| == |urls|
  {
    if urls == [] then [] else ChannelEntries(c, urls[..|urls| - 1]) + [Entry(c, urls[|urls| - 1])]
  }

  lemma {:induction false} ChannelEntriesAt(c: string, urls: seq<string>, k: nat)
    requires k < |urls|
    ensures ChannelEntries(c, urls)[k] == Entry(c, urls[k])
    decreases |urls|
  {
    if k < |urls| - 1 {
      ChannelEntriesAt(c, urls[..|urls| - 1], k);
    }
  }

  lemma {:induction false} LinesAt(es: seq<Entry>, j: nat)
    requires j < |es|
    ensures Lines(es)[j] == EntryLine(es[j])
    decreases |es|
  {
    if j < |es| - 1 {
      LinesAt(es[..|es| - 1], j);
    }
  }

  /** The entries of the channels `ks`, channel after channel. */
  function BodyEntries(m: SourceMap, ks: seq<string>): seq<Entry>
    requires forall j :: 0 <= j < |ks| ==> ks[j] in m
  {
    if ks == [] then [] else BodyEntries(m, ks[..|ks| - 1]) + ChannelEntries(ks[|ks| - 1], m[ks[|ks| - 1]])
  }

  /** The lines `generate_result` collects. */
  function ResultLines(m: SourceMap, withHeader: bool, timestamp: string): seq<string>
  {
    (if withHeader then Header(m, timestamp) else []) + Lines(BodyEntries(m, SortedNames(m.Keys)))
  }

  /** The text `generate_result` returns. */
  function Render(m: SourceMap, withHeader: bool, timestamp: string): string
  {
    Join(ResultLines(m, withHeader, timestamp), '\n')
  }

  /** `generate_result(sources)`, with `open_update_time` and the current time as parameters. */
  method GenerateResult(sources: SourceMap, openUpdateTime: bool, timestamp: string) returns (result: string)
    ensures result == Render(sources, openUpdateTime, timestamp)
  {
    var lines: seq<string> := [];
    if openUpdateTime {
      lines := AddHeader(lines, sources, timestamp);
    }
    assert lines == if openUpdateTime then Header(sources, timestamp) else [];
    lines := AddBody(lines, sources);
    result := Join(lines, '\n');
  }

  /** The five header appends. */
  method AddHeader(lines: seq<string>, sources: SourceMap, timestamp: string) returns (next: seq<string>)
    ensures next == lines + Header(sources, timestamp)
  {
    next := lines + [Title];
    next := next + [TimePrefix + timestamp];
    next := next + [ChannelsPrefix + ToDecimal(|sources|)];
    next := next + [UrlsPrefix + ToDecimal(TotalUrls(sources))];
    next := next + [""];
  }

  /** The loop over `sorted(sources.items())`. */
  method AddBody(lines: seq<string>, sources: SourceMap) returns (next: seq<string>)
    ensures next == lines + Lines(BodyEntries(sources, SortedNames(sources.Keys)))
  {
    var names := SortedNames(sources.Keys);
    next := AddChannels(lines, sources, names);
  }

  /** The lines of the channels `names`, one channel after the other. */
  method AddChannels(lines: seq<string>, sources: SourceMap, names: seq<string>) returns (next: seq<string>)
    requires forall j :: 0 <= j < |names| ==> names[j] in sources
    ensures next == lines + Lines(BodyEntries(sources, names))
  {
    next := lines;
    var i := 0;
    while i < |names|
      invariant 0 <= i <= |names|
      invariant next == lines + Lines(BodyEntries(sources, names[..i]))
    {
      ghost var done := BodyEntries(sources, names[..i]);
      var channel := names[i];
      ghost var added := ChannelEntries(channel, sources[channel]);
      next := AddChannelLines(next, channel, sources[channel]);
      ConcatAssociative(lines, Lines(done), Lines(added));
      LinesConcat(done, added);
      BodyStep(sources, names, i);
      i := i + 1;
    }
    assert names[..i] == names;
  }

  /** The inner loop: one line per URL of the channel. */
  method AddChannelLines(lines: seq<string>, channel: string, urls: seq<string>) returns (next: seq<string>)
    ensures next == lines + Lines(ChannelEntries(channel, urls))
  {
    next := lines;
    var j := 0;
    while j < |urls|
      invariant 0 <= j <= |urls|
      invariant next == lines + Lines(ChannelEntries(channel, urls[..j]))
    {
      ChannelStep(channel, urls, j);
      LinesSnoc(ChannelEntries(channel, urls[..j]), Entry(channel, urls[j]));
      ConcatAssociative(lines, Lines(ChannelEntries(channel, urls[..j])), [channel + "," + urls[j]]);
      next := next + [channel + "," + urls[j]];
      j := j + 1;
    }
    assert urls[..j] == urls;
  }

  lemma {:induction false} LinesConcat(a: seq<Entry>, b: seq<Entry>)
    ensures Lines(a + b) == Lines(a) + Lines(b)
    decreases |b|
  {
    if b == [] {
      assert a + b == a;
    } else {
      LinesConcat(a, b[..|b| - 1]);
      assert (a + b)[..|a + b| - 1] == a + b[..|b| - 1];
    }
  }

  lemma LinesSnoc(es: seq<Entry>, e: Entry)
    ensures Lines(es + [e]) == Lines(es) + [EntryLine(e)]
  {
    assert (es + [e])[..|es|] == es;
  }

  lemma ChannelStep(c: string, urls: seq<string>, j: nat)
    requires j < |urls|
    ensures ChannelEntries(c, urls[..j + 1]) == ChannelEntries(c, urls[..j]) + [Entry(c, urls[j])]
  {
    assert urls[..j + 1][..j] == urls[..j];
  }

  lemma BodyStep(m: SourceMap, names: seq<string>, i: nat)
    requires i < |names| && forall j :: 0 <= j < |names| ==> names[j] in m
    ensures BodyEntries(m, names[..i + 1]) == BodyEntries(m, names[..i]) + ChannelEntries(names[i], m[names[i]])
  {
    assert names[..i + 1][..i] == names[..i];
  }

  /** There is one body line per URL. */
  lemma {:induction false} BodyLength(m: SourceMap, ks: seq<string>)
    requires forall j :: 0 <= j < |ks| ==> ks[j] in m
    ensures |BodyEntries(m, ks)| == SumLengths(m, ks)
    decreases |ks|
  {
    if ks != [] {
      BodyLength(m, ks[..|ks| - 1]);
    }
  }

  /** The output has the header's five lines, if any, and then exactly one line per URL. */
  lemma LineCount(m: SourceMap, withHeader: bool, timestamp: string)
    ensures |ResultLines(m, withHeader, timestamp)| == (if withHeader then 5 else 0) + TotalUrls(m)
  {
    BodyLength(m, SortedNames(m.Keys));
  }

  /**
   * The header's third line reports the number of channels and its fourth
   * the number of URLs, each readable back with `int()`; the fifth is empty.
   */
  lemma HeaderReports(m: SourceMap, timestamp: string)
    ensures var h := ResultLines(m, true, timestamp);
      && h[0] == Title && h[1] == TimePrefix + timestamp
      && h[2][..|ChannelsPrefix|] == ChannelsPrefix && ParseInt(h[2][|ChannelsPrefix|..]) == Some(|m|)
      && h[3][..|UrlsPrefix|] == UrlsPrefix && ParseInt(h[3][|UrlsPrefix|..]) == Some(TotalUrls(m))
      && h[4] == ""
  {
    var h := ResultLines(m, true, timestamp);
    assert h[..5] == Header(m, timestamp);
    assert h[2] == ChannelsPrefix + IntToString(|m|);
    assert h[3] == UrlsPrefix + IntToString(TotalUrls(m));
    ParseIntToString(|m|);
    ParseIntToString(TotalUrls(m));
  }

  /** Without the header an empty dictionary renders as the empty text. */
  lemma EmptyRender(timestamp: string)
    ensures Render(map[], false, timestamp) == ""
  {
    var empty: SourceMap := map[];
    assert SortedNames(empty.Keys) == [];
  }

  /** Every body entry belongs to one of the rendered channels. */
  lemma {:induction false} BodyChannels(m: SourceMap, ks: seq<string>)
    requires forall j :: 0 <= j < |ks| ==> ks[j] in m
    ensures forall p :: 0 <= p < |BodyEntries(m, ks)| ==> BodyEntries(m, ks)[p].channel in ks
    decreases |ks|
  {
    if ks != [] {
      var init := ks[..|ks| - 1];
      BodyChannels(m, init);
      var a: seq<Entry> := BodyEntries(m, init);
      var b: seq<Entry> := ChannelEntries(ks[|ks| - 1], m[ks[|ks| - 1]]);
      forall p | 0 <= p < |a + b| ensures (a + b)[p].channel in ks {
        if p < |a| {
          assert a[p].channel in init;
        } else {
          ChannelEntriesAt(ks[|ks| - 1], m[ks[|ks| - 1]], p - |a|);
        }
      }
    }
  }

  /**
   * The body lists channels in ascending order: a line never names a
   * channel that sorts after the channel of a later line.
   */
  lemma {:induction false} BodyAscending(m: SourceMap, ks: seq<string>)
    requires forall j :: 0 <= j < |ks| ==> ks[j] in m
    requires StrictlyAscending(ks)
    ensures ChannelsAscending(BodyEntries(m, ks))
    decreases |ks|
  {
    if ks != [] {
      var n := |ks|;
      var init := ks[..n - 1];
      assert forall i :: 0 <= i < n - 1 ==> init[i] == ks[i];
      BodyAscending(m, init);
      BodyChannels(m, init);
      var a: seq<Entry> := BodyEntries(m, init);
      var b: seq<Entry> := ChannelEntries(ks[n - 1], m[ks[n - 1]]);
      forall p, q | 0 <= p < q < |a + b|
        ensures (a + b)[p].channel == (a + b)[q].channel || Less((a + b)[p].channel, (a + b)[q].channel)
      {
        if q < |a| {
          assert (a + b)[p] == a[p] && (a + b)[q] == a[q];
        } else if p >= |a| {
          assert (a + b)[p] == b[p - |a|] && (a + b)[q] == b[q - |a|];
          ChannelEntriesAt(ks[n - 1], m[ks[n - 1]], p - |a|);
          ChannelEntriesAt(ks[n - 1], m[ks[n - 1]], q - |a|);
        } else {
          assert (a + b)[p] == a[p] && (a + b)[q] == b[q - |a|];
          ChannelEntriesAt(ks[n - 1], m[ks[n - 1]], q - |a|);
          var t :| 0 <= t < n - 1 && init[t] == a[p].channel;
          assert Less(ks[t], ks[n - 1]);
        }
      }
      assert BodyEntries(m, ks) == a + b;
    }
  }

  /** No entry names a channel that sorts after the channel of a later entry. */
  predicate ChannelsAscending(es: seq<Entry>)
  {
    forall p, q :: 0 <= p < q < |es| ==> es[p].channel == es[q].channel || Less(es[p].channel, es[q].channel)
  }

  /** The URLs of channel `c` among the body entries: its whole list when it is rendered. */
  lemma {:induction false} BodyUrls(m: SourceMap, ks: seq<string>, c: string)
    requires forall j :: 0 <= j < |ks| ==> ks[j] in m
    requires StrictlyAscending(ks)
    ensures UrlsOf(BodyEntries(m, ks), c) == if c in ks then m[c] else []
    decreases |ks|
  {
    if ks != [] {
      var n := |ks|;
      var init, last := ks[..n - 1], ks[n - 1];
      assert forall i :: 0 <= i < n - 1 ==> init[i] == ks[i];
      BodyUrls(m, init, c);
      ChannelUrls(last, m[last], c);
      UrlsOfConcat(BodyEntries(m, init), ChannelEntries(last, m[last]), c);
      LastSplit(ks);
      if c == last {
        LastIsNew(ks);
      } else {
        assert c in ks <==> c in init;
      }
    }
  }

  lemma LastIsNew(ks: seq<string>)
    requires ks != [] && StrictlyAscending(ks)
    ensures ks[|ks| - 1] !in ks[..|ks| - 1]
  {
    if ks[|ks| - 1] in ks[..|ks| - 1] {
      var t :| 0 <= t < |ks| - 1 && ks[t] == ks[|ks| - 1];
      LessIrreflexive(ks[t]);
    }
  }

  lemma {:induction false} ChannelUrls(d: string, urls: seq<string>, c: string)
    ensures UrlsOf(ChannelEntries(d, urls), c) == if d == c then urls else []
    decreases |urls|
  {
    if urls != [] {
      var n := |urls|;
      var init := urls[..n - 1];
      ChannelUrls(d, init, c);
      var es := ChannelEntries(d, urls);
      assert es == ChannelEntries(d, init) + [Entry(d, urls[n - 1])];
      assert es[..n - 1] == ChannelEntries(d, init);
      if d == c {
        assert urls == init + [urls[n - 1]];
      }
    }
  }

  /** Collecting the body entries of the sorted channels gives back a dictionary whose lists are non-empty. */
  lemma CollectBody(m: SourceMap, ks: seq<string>)
    requires NonEmptyLists(m)
    requires StrictlyAscending(ks)
    requires forall k :: k in ks <==> k in m
    ensures Collect(BodyEntries(m, ks)) == m
  {
    assert forall j :: 0 <= j < |ks| ==> ks[j] in m;
    var es := BodyEntries(m, ks);
    var r := Collect(es);
    forall c | c in m ensures c in r && r[c] == m[c] {
      CollectAt(es, c);
      BodyUrls(m, ks, c);
    }
    forall c | c in r ensures c in m {
      CollectAt(es, c);
      BodyUrls(m, ks, c);
    }
    assert r.Keys == m.Keys;
  }

  /**
   * A dictionary the text format can carry: every list non-empty, every
   * channel and URL non-empty, stripped, free of commas and newlines, no
   * channel starting with `#`, and every URL passing `is_valid_url`.
   */
  predicate Representable(m: SourceMap)
  {
    forall c :: c in m ==>
      && c != [] && c[0] != '#' && '\n' !in c && m[c] != []
      && forall u :: u in m[c] ==> '\n' !in u && CleanEntry(Entry(c, u))
  }

  /**
   * Every dictionary read from delimited text can be written and read back:
   * its channels and URLs come from single lines, so they hold no newline,
   * and a channel starts with the first character of a line that is not a
   * comment.
   */
  lemma ParsedRepresentable(content: string)
    ensures Representable(TextSources(content))
  {
    var lines := Split(content, '\n');
    var es := Entries(lines);
    var m := TextSources(content);
    SplitPiecesClean(content, '\n');
    EntriesReadable(lines);
    forall c | c in m
      ensures c != [] && c[0] != '#' && '\n' !in c && m[c] != []
      ensures forall u :: u in m[c] ==> '\n' !in u && CleanEntry(Entry(c, u))
    {
      CollectAt(es, c);
      forall u | u in m[c] ensures ReadableEntry(Entry(c, u)) {
        UrlsOfEntries(es, c, u);
      }
      assert m[c][0] in m[c];
    }
  }

  /** The entries of newline-free lines are readable. */
  lemma {:induction false} EntriesReadable(lines: seq<string>)
    requires forall j :: 0 <= j < |lines| ==> '\n' !in lines[j]
    ensures forall e :: e in Entries(lines) ==> ReadableEntry(e)
    decreases |lines|
  {
    if lines != [] {
      var init, last := lines[..|lines| - 1], lines[|lines| - 1];
      EntriesReadable(init);
      LineReadable(last);
      assert Entries(lines) == Entries(init) + LineEntries(last);
    }
  }

  /** The entry of a newline-free line, if any, is readable. */
  lemma LineReadable(raw: string)
    requires '\n' !in raw
    ensures forall e :: e in LineEntries(raw) ==> ReadableEntry(e)
  {
    if ClassifyLine(raw).Accepted? {
      AcceptedReadable(raw, ClassifyLine(raw).entry);
    }
  }

  lemma AcceptedReadable(raw: string, e: Entry)
    requires '\n' !in raw && ClassifyLine(raw) == Accepted(e)
    ensures ReadableEntry(e)
  {
    LineEntryClean(raw);
    assert e in LineEntries(raw);
    var line := Strip(raw);
    var parts := Split(line, ',');
    assert e == Entry(Strip(parts[0]), Strip(parts[1]));
    StripChars(raw);
    SplitPiecesWithout(line, ',', '\n');
    StripChars(parts[0]);
    StripChars(parts[1]);
    ChannelStartsLine(line);
    assert line[..1] != "#";
  }

  /** The channel of an accepted line starts with the line's first character. */
  lemma ChannelStartsLine(line: string)
    requires IsStripped(line) && line != [] && ',' in line
    ensures Strip(Split(line, ',')[0]) != [] ==> Strip(Split(line, ',')[0])[0] == line[0]
  {
    var i := Find(line, ',');
    assert Split(line, ',')[0] == line[..i];
    if i > 0 {
      StripKeepsFirst(line[..i]);
    }
  }

  /**
   * Reading the result back as delimited text gives the dictionary again:
   * the header is skipped as comments, each line yields its entry, and the
   * lists come back whole and in order.
   */
  lemma RoundTrip(m: SourceMap, withHeader: bool, timestamp: string)
    requires Representable(m)
    requires '\n' !in timestamp
    ensures TextSources(Render(m, withHeader, timestamp)) == m
  {
    var ks := SortedNames(m.Keys);
    var es := BodyEntries(m, ks);
    var head := if withHeader then Header(m, timestamp) else [];
    BodyClean(m, ks);
    CollectBody(m, ks);
    if withHeader {
      HeaderIsComments(m, timestamp);
    }
    if head + Lines(es) == [] {
      EmptyText();
      assert es == [];
    } else {
      ReadBack(head, es);
    }
  }

  /** A line the parser skips: blank, or a comment; it holds no newline. */
  predicate CommentLine(line: string)
  {
    '\n' !in line && (line == "" || line[0] == '#')
  }

  /** The header lines are all skipped. */
  lemma HeaderIsComments(m: SourceMap, timestamp: string)
    requires '\n' !in timestamp
    ensures forall j :: 0 <= j < 5 ==> CommentLine(Header(m, timestamp)[j])
  {
    assert Title[0] == '#' && '\n' !in Title;
    assert TimePrefix[0] == '#' && '\n' !in TimePrefix;
    assert ChannelsPrefix[0] == '#' && '\n' !in ChannelsPrefix;
    assert UrlsPrefix[0] == '#' && '\n' !in UrlsPrefix;
    DigitsNoNewline(ToDecimal(|m|));
    DigitsNoNewline(ToDecimal(TotalUrls(m)));
  }

  lemma DigitsNoNewline(d: string)
    requires AllDigits(d)
    ensures '\n' !in d
  {
  }

  /** Skipped lines followed by the lines of readable entries read back as those entries. */
  lemma ReadBack(head: seq<string>, es: seq<Entry>)
    requires forall j :: 0 <= j < |head| ==> CommentLine(head[j])
    requires forall p :: 0 <= p < |es| ==> ReadableEntry(es[p])
    requires head + Lines(es) != []
    ensures Entries(Split(Join(head + Lines(es), '\n'), '\n')) == es
  {
    var lines := head + Lines(es);
    LinesNoNewline(es);
    forall j | 0 <= j < |lines| ensures '\n' !in lines[j] {
      if j >= |head| {
        assert lines[j] == Lines(es)[j - |head|];
      }
    }
    SplitJoin(lines, '\n');
    FlatMapConcat(head, Lines(es), LineEntries);
    CommentsSkipped(head);
    BodyLinesRead(es);
  }

  /** Skipped lines yield no entries. */
  lemma {:induction false} CommentsSkipped(lines: seq<string>)
    requires forall j :: 0 <= j < |lines| ==> CommentLine(lines[j])
    ensures Entries(lines) == []
    decreases |lines|
  {
    if lines != [] {
      CommentsSkipped(lines[..|lines| - 1]);
      CommentSkipped(lines[|lines| - 1]);
    }
  }

  lemma CommentSkipped(line: string)
    requires CommentLine(line)
    ensures LineEntries(line) == []
  {
    if line != "" {
      StripKeepsFirst(line);
    }
  }

  /** The body entries carry the properties `Representable` asks of the dictionary. */
  lemma BodyClean(m: SourceMap, ks: seq<string>)
    requires Representable(m)
    requires forall j :: 0 <= j < |ks| ==> ks[j] in m
    ensures forall p :: 0 <= p < |BodyEntries(m, ks)| ==> ReadableEntry(BodyEntries(m, ks)[p])
  {
    forall c, u | c in m && u in m[c] ensures ReadableEntry(Entry(c, u)) {
    }
    BodyAll(m, ks, ReadableEntry);
  }

  /** A property every (channel, URL) pair of the dictionary has, every body entry has. */
  lemma {:induction false} BodyAll(m: SourceMap, ks: seq<string>, P: Entry -> bool)
    requires forall j :: 0 <= j < |ks| ==> ks[j] in m
    requires forall c, u :: c in m && u in m[c] ==> P(Entry(c, u))
    ensures forall p :: 0 <= p < |BodyEntries(m, ks)| ==> P(BodyEntries(m, ks)[p])
    decreases |ks|
  {
    if ks != [] {
      var d := ks[|ks| - 1];
      BodyAll(m, ks[..|ks| - 1], P);
      var a: seq<Entry> := BodyEntries(m, ks[..|ks| - 1]);
      var b: seq<Entry> := ChannelEntries(d, m[d]);
      forall p | 0 <= p < |a + b| ensures P((a + b)[p]) {
        if p >= |a| {
          ChannelEntriesAt(d, m[d], p - |a|);
          assert m[d][p - |a|] in m[d];
        } else {
          assert (a + b)[p] == a[p];
        }
      }
    }
  }

  /** An entry whose line reads back as itself. */
  predicate ReadableEntry(e: Entry)
  {
    CleanEntry(e) && e.channel[0] != '#' && '\n' !in e.channel && '\n' !in e.url
  }

  lemma EntryLineNoNewline(e: Entry)
    requires '\n' !in e.channel && '\n' !in e.url
    ensures '\n' !in EntryLine(e)
  {
  }

  /** The line of a readable entry is stripped and holds no newline. */
  lemma EntryLineShape(e: Entry)
    requires ReadableEntry(e)
    ensures '\n' !in EntryLine(e)
    ensures Strip(EntryLine(e)) == EntryLine(e)
    ensures EntryLine(e) == e.channel + "," + e.url + []
  {
    var line := EntryLine(e);
    assert line[0] == e.channel[0] && line[|line| - 1] == e.url[|e.url| - 1];
    StripIdem(line);
  }

  /** The line of a readable entry parses back to the entry. */
  lemma EntryLineRead(e: Entry)
    requires ReadableEntry(e)
    ensures LineEntries(EntryLine(e)) == [e]
  {
    var line := EntryLine(e);
    EntryLineShape(e);
    EntryLineNotComment(e);
    StripIdem(e.channel);
    StripIdem(e.url);
    LineFields(line, e.channel, e.url, []);
    assert ClassifyLine(line) == Accepted(e);
  }

  lemma EntryLineNotComment(e: Entry)
    requires ReadableEntry(e)
    ensures !StartsWith(EntryLine(e), "#")
  {
    assert EntryLine(e)[0] == e.channel[0];
  }

  lemma LinesNoNewline(es: seq<Entry>)
    requires forall p :: 0 <= p < |es| ==> ReadableEntry(es[p])
    ensures forall j :: 0 <= j < |es| ==> '\n' !in Lines(es)[j]
  {
    forall j | 0 <= j < |es| ensures '\n' !in Lines(es)[j] {
      LinesAt(es, j);
      EntryLineNoNewline(es[j]);
    }
  }

  /** The lines of readable entries read back as those entries. */
  lemma {:induction false} BodyLinesRead(es: seq<Entry>)
    requires forall p :: 0 <= p < |es| ==> ReadableEntry(es[p])
    ensures Entries(Lines(es)) == es
    decreases |es|
  {
    if es != [] {
      BodyLinesRead(es[..|es| - 1]);
      EntryLineRead(es[|es| - 1]);
      ReadStep(es);
    }
  }

  lemma ReadStep(es: seq<Entry>)
    requires es != []
    requires Entries(Lines(es[..|es| - 1])) == es[..|es| - 1]
    requires LineEntries(EntryLine(es[|es| - 1])) == [es[|es| - 1]]
    ensures Entries(Lines(es)) == es
  {
    var init, e := es[..|es| - 1], es[|es| - 1];
    assert Lines(es) == Lines(init) + [EntryLine(e)];
    EntriesSnoc(Lines(init), EntryLine(e), e);
    LastSplit(es);
  }

  lemma EntriesSnoc(lines: seq<string>, line: string, e: Entry)
    requires LineEntries(line) == [e]
    ensures Entries(lines + [line]) == Entries(lines) + [e]
  {
    assert (lines + [line])[..|lines|] == lines;
  }
}
