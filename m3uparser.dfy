/**
 * The extended M3U playlist format as `TVSourceUpdater.parse_m3u_content`
 * reads it: an `#EXTINF:` line names the channel (the text after its first
 * comma) and the next non-comment line is that channel's URL.
 */
module M3uParser {
  import opened Wrappers
  import opened Strings
  import opened Utility
  import opened SourceMaps

  /**
   * `re.search(r',(.+)$', line)` on a line without newlines: the text after
   * the first comma when there is any, stripped; no match otherwise.
   */
  function ExtinfName(line: string): Option<string>
  {
    var p := Find(line, ',');
    if p + 1 < |line| then Some(Strip(line[p + 1..])) else None
  }

  /** What one playlist line is, as the loop body tells the cases apart. */
  datatype M3uLine =
    | NameLine(name: string)              // `#EXTINF:` with a name after its first comma
    | UrlLine(url: string, valid: bool)   // a stripped non-comment line, and whether `is_valid_url` accepts it
    | OtherLine                           // blank, a comment, or `#EXTINF:` without a name

  /** The case the loop body takes for one raw line. */
  function LineOf(raw: string): M3uLine
  {
    var line := Strip(raw);
    if StartsWith(line, "#EXTINF:") then
      match ExtinfName(line)
      case Some(name) => NameLine(name)
      case None => OtherLine
    else if line != [] && !StartsWith(line, "#") then UrlLine(line, IsValidUrl(line))
    else OtherLine
  }

  /** The lines, classified one by one. */
  function Kinds(lines: seq<string>): seq<M3uLine>
  {
    if lines == [] then [] else Kinds(lines[..|lines| - 1]) + [LineOf(lines[|lines| - 1])]
  }

  /** Python truthiness of `current_channel`: set and non-empty. */
  predicate Pending(channel: Option<string>)
  {
    channel.Some? && channel.value != []
  }

  /** The accepted entries so far and `current_channel`. */
  datatype M3uState = M3uState(entries: seq<Entry>, channel: Option<string>)

  /**
   * What one line does to the parser state: a name sets the pending
   * channel; a URL line while a channel is pending adds the entry when the
   * URL is valid and clears the channel either way; anything else is ignored.
   */
  function M3uStep(st: M3uState, k: M3uLine): M3uState
  {
    match k
    case NameLine(name) => st.(channel := Some(name))
    case UrlLine(url, valid) =>
      if Pending(st.channel) then
        M3uState(st.entries + (if valid then [Entry(st.channel.value, url)] else []), None)
      else st
    case OtherLine => st
  }

  /** The state after the lines, one after the other. */
  function M3uScan(ks: seq<M3uLine>): M3uState
  {
    if ks == [] then M3uState([], None) else M3uStep(M3uScan(ks[..|ks| - 1]), ks[|ks| - 1])
  }

  /** The dictionary the playlist denotes. */
  function M3uSources(content: string): SourceMap
  {
    Collect(M3uScan(Kinds(Split(content, '\n'))).entries)
  }

  /** `parse_m3u_content(content)`. */
  method ParseM3uContent(content: string) returns (sources: SourceMap)
    ensures sources == M3uSources(content)
  {
    sources := map[];
    var lines := Split(content, '\n');
    var currentChannel: Option<string> := None;
    var i := 0;
    while i < |lines|
      invariant 0 <= i <= |lines|
      invariant sources == Collect(M3uScan(Kinds(lines[..i])).entries)
      invariant currentChannel == M3uScan(Kinds(lines[..i])).channel
    {
      sources, currentChannel := AddM3uLine(sources, currentChannel, lines[i], M3uScan(Kinds(lines[..i])).entries);
      ScanStep(lines, i);
      i := i + 1;
    }
    assert lines[..i] == lines;
  }

  /** Reading one more line moves the state one `M3uStep` on. */
  lemma ScanStep(lines: seq<string>, i: nat)
    requires i < |lines|
    ensures M3uScan(Kinds(lines[..i + 1])) == M3uStep(M3uScan(Kinds(lines[..i])), LineOf(lines[i]))
  {
    assert lines[..i + 1][..i] == lines[..i];
    var ks := Kinds(lines[..i]);
    assert (ks + [LineOf(lines[i])])[..|ks|] == ks;
  }

  /**
   * The body of the parsing loop for one line: `sources` is the dictionary
   * of the entries `es` accepted so far.
   */
  method AddM3uLine(sources: SourceMap, channel: Option<string>, raw: string, ghost es: seq<Entry>)
    returns (next: SourceMap, nextChannel: Option<string>)
    requires sources == Collect(es)
    ensures next == Collect(M3uStep(M3uState(es, channel), LineOf(raw)).entries)
    ensures nextChannel == M3uStep(M3uState(es, channel), LineOf(raw)).channel
  {
    next, nextChannel := sources, channel;
    var line := Strip(raw);
    if StartsWith(line, "#EXTINF:") {
      var name := ExtinfName(line);
      if name.Some? {
        nextChannel := Some(name.value);
      }
    } else if line != [] && !StartsWith(line, "#") && Pending(nextChannel) {
      var currentUrl := line;
      assert LineOf(raw) == UrlLine(currentUrl, IsValidUrl(currentUrl));
      if Pending(nextChannel) && currentUrl != [] && IsValidUrl(currentUrl) {
        var c := nextChannel.value;
        if c !in next {
          next := next[c := []];
        }
        next := next[c := next[c] + [currentUrl]];
        AppendInTwoSteps(sources, Entry(c, currentUrl), next);
        CollectSnoc(es, Entry(c, currentUrl));
      } else {
        assert es + [] == es;
      }
      nextChannel := None;
    }
  }

  /** The regular expression on a line with a comma: the stripped text after the first comma, if any. */
  lemma ExtinfNameAfterComma(a: string, b: string)
    requires ',' !in a
    ensures ExtinfName(a + "," + b) == if b == [] then None else Some(Strip(b))
  {
    var line := a + "," + b;
    assert forall k :: 0 <= k < |a| ==> line[k] == a[k];
    assert line[|a|] == ',';
    assert Find(line, ',') == |a|;
    assert line[|a| + 1..] == b;
  }

  /** A line without a comma never matches. */
  lemma ExtinfNameNoComma(line: string)
    requires ',' !in line
    ensures ExtinfName(line) == None
  {
  }

  /**
   * A name line carries a non-empty name taken from a stripped `#EXTINF:`
   * line; a URL line carries the stripped line, non-empty and not a comment,
   * with the verdict of `is_valid_url` on it.
   */
  lemma LineOfCases(raw: string)
    ensures LineOf(raw).NameLine? ==> LineOf(raw).name != [] && StartsWith(Strip(raw), "#EXTINF:")
    ensures LineOf(raw).UrlLine? ==>
      var u := LineOf(raw).url;
      u == Strip(raw) && u != [] && u[0] != '#' && LineOf(raw).valid == IsValidUrl(u)
  {
    ExtinfNamed(Strip(raw));
  }

  /** On a stripped line, a name after the first comma is never empty. */
  lemma ExtinfNamed(line: string)
    requires IsStripped(line)
    ensures ExtinfName(line).Some? ==> ExtinfName(line).value != []
  {
    var p := Find(line, ',');
    if p + 1 < |line| {
      var b := line[p + 1..];
      assert b[|b| - 1] == line[|line| - 1];
      StripEmpty(b);
    }
  }

  /** No line names the empty channel. */
  lemma {:induction false} KindsNamed(lines: seq<string>)
    ensures forall j :: 0 <= j < |Kinds(lines)| ==> Kinds(lines)[j] != NameLine([])
    decreases |lines|
  {
    if lines != [] {
      KindsNamed(lines[..|lines| - 1]);
      LineOfCases(lines[|lines| - 1]);
    }
  }

  lemma KindsLength(lines: seq<string>)
    ensures |Kinds(lines)| == |lines|
  {
  }

  /** Line `i` names channel `c` and every later line is ignored. */
  predicate LatestName(ks: seq<M3uLine>, c: string)
  {
    exists i :: 0 <= i < |ks| && ks[i] == NameLine(c) && forall j :: i < j < |ks| ==> ks[j].OtherLine?
  }

  /**
   * A non-empty channel is pending exactly when it is the name of the
   * latest name line and no URL line has come since.
   */
  lemma {:induction false} PendingFromLatest(ks: seq<M3uLine>, c: string)
    requires c != []
    ensures M3uScan(ks).channel == Some(c) <==> LatestName(ks, c)
    decreases |ks|
  {
    if ks != [] {
      PendingFromLatest(ks[..|ks| - 1], c);
      match ks[|ks| - 1]
      case NameLine(_) => LatestAfterName(ks, c);
      case UrlLine(_, _) => LatestAfterUrl(ks, c);
      case OtherLine => LatestAfterOther(ks, c);
    }
  }

  lemma LatestAfterName(ks: seq<M3uLine>, c: string)
    requires ks != [] && ks[|ks| - 1].NameLine?
    ensures LatestName(ks, c) <==> ks[|ks| - 1].name == c
  {
    var n := |ks|;
    if LatestName(ks, c) {
      var i :| 0 <= i < n && ks[i] == NameLine(c) && forall j :: i < j < n ==> ks[j].OtherLine?;
      assert i == n - 1;
    }
    if ks[n - 1].name == c {
      assert ks[n - 1] == NameLine(c);
    }
  }

  lemma LatestAfterUrl(ks: seq<M3uLine>, c: string)
    requires ks != [] && ks[|ks| - 1].UrlLine?
    ensures !LatestName(ks, c)
  {
  }

  lemma LatestAfterOther(ks: seq<M3uLine>, c: string)
    requires ks != [] && ks[|ks| - 1].OtherLine?
    ensures LatestName(ks, c) <==> LatestName(ks[..|ks| - 1], c)
  {
    var n := |ks|;
    var init := ks[..n - 1];
    if LatestName(ks, c) {
      var i :| 0 <= i < n && ks[i] == NameLine(c) && forall j :: i < j < n ==> ks[j].OtherLine?;
      assert i < n - 1;
      forall j | i < j < n - 1
        ensures init[j].OtherLine?
      {
        assert init[j] == ks[j];
      }
      assert init[i] == NameLine(c);
    }
    if LatestName(init, c) {
      var i :| 0 <= i < n - 1 && init[i] == NameLine(c) && forall j :: i < j < n - 1 ==> init[j].OtherLine?;
      forall j | i < j < n
        ensures ks[j].OtherLine?
      {
        if j < n - 1 {
          assert ks[j] == init[j];
        }
      }
      assert ks[i] == NameLine(c);
    }
  }

  /** Where no line names the empty channel, a pending channel is any set one. */
  lemma {:induction false} NeverEmptyChannel(ks: seq<M3uLine>)
    requires forall j :: 0 <= j < |ks| ==> ks[j] != NameLine([])
    ensures M3uScan(ks).channel != Some([])
    decreases |ks|
  {
    if ks != [] {
      NeverEmptyChannel(ks[..|ks| - 1]);
    }
  }

  /** A URL line always leaves no channel pending. */
  lemma UrlLineClears(ks: seq<M3uLine>, url: string, valid: bool)
    requires forall j :: 0 <= j < |ks| ==> ks[j] != NameLine([])
    ensures M3uScan(ks + [UrlLine(url, valid)]).channel == None
  {
    assert (ks + [UrlLine(url, valid)])[..|ks|] == ks;
    NeverEmptyChannel(ks);
  }

  /**
   * On a playlist's own lines a URL line adds the entry `(c, url)` exactly
   * when the URL is valid and `c` is the name of the latest name line with
   * no URL line since.
   */
  lemma UrlLineAttribution(ks: seq<M3uLine>, url: string, valid: bool, c: string)
    requires forall j :: 0 <= j < |ks| ==> ks[j] != NameLine([])
    requires c != []
    ensures M3uScan(ks + [UrlLine(url, valid)]).entries == M3uScan(ks).entries + [Entry(c, url)]
      <==> valid && LatestName(ks, c)
  {
    ScanAppend(ks, UrlLine(url, valid));
    NeverEmptyChannel(ks);
    PendingFromLatest(ks, c);
    var st := M3uScan(ks);
    if !(valid && LatestName(ks, c)) {
      var added := M3uScan(ks + [UrlLine(url, valid)]).entries;
      if Pending(st.channel) && valid {
        assert added == st.entries + [Entry(st.channel.value, url)];
        assert added[|st.entries|] != Entry(c, url);
      } else {
        assert |added| == |st.entries|;
      }
    }
  }

  /** The scan of a longer playlist takes one more step. */
  lemma ScanAppend(ks: seq<M3uLine>, k: M3uLine)
    ensures M3uScan(ks + [k]) == M3uStep(M3uScan(ks), k)
  {
    assert (ks + [k])[..|ks|] == ks;
  }

  /** Without a new name line, a second URL line is ignored. */
  lemma SecondUrlIgnored(ks: seq<M3uLine>, first: M3uLine, second: M3uLine)
    requires forall j :: 0 <= j < |ks| ==> ks[j] != NameLine([])
    requires first.UrlLine? && second.UrlLine?
    ensures M3uScan(ks + [first, second]) == M3uScan(ks + [first])
  {
    UrlLineClears(ks, first.url, first.valid);
    assert (ks + [first, second])[..|ks| + 1] == ks + [first];
  }

  /** Only URL lines add entries. */
  lemma OtherLinesAddNothing(ks: seq<M3uLine>, k: M3uLine)
    requires !k.UrlLine?
    ensures M3uScan(ks + [k]).entries == M3uScan(ks).entries
  {
    assert (ks + [k])[..|ks|] == ks;
  }

  /**
   * The playlist dictionary holds a channel exactly when some entry names
   * it; its list is those entries' URLs in line order, never empty.
   */
  lemma M3uSourcesAt(content: string, c: string)
    ensures c in M3uSources(content) <==> UrlsOf(M3uScan(Kinds(Split(content, '\n'))).entries, c) != []
    ensures c in M3uSources(content) ==> M3uSources(content)[c] == UrlsOf(M3uScan(Kinds(Split(content, '\n'))).entries, c)
    ensures NonEmptyLists(M3uSources(content))
  {
    var es := M3uScan(Kinds(Split(content, '\n'))).entries;
    CollectAt(es, c);
    CollectNonEmpty(es);
  }
}
