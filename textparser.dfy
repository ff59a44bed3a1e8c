/**
 * The delimited `channel,url` format: `TVSourceUpdater.parse_text_content`
 * for fetched subscriptions and the identical loop of
 * `TVSourceUpdater._load_text_sources` for the local and template files.
 */
module TextParser {
  import opened Strings
  import opened Utility
  import opened SourceMaps

  /** What one line of delimited text does to the dictionary. */
  datatype LineKind =
    | Skipped              // blank after stripping, or a `#` comment
    | NoComma              // logged as a missing separator, otherwise ignored
    | Malformed            // fewer than two comma fields: logged as a format error
    | Rejected             // an empty field or a URL that fails `is_valid_url`
    | Accepted(entry: Entry)

  /** The decision the loop body takes for one raw line. */
  function ClassifyLine(raw: string): LineKind
  {
    var line := Strip(raw);
    if line == [] || StartsWith(line, "#") then Skipped
    else if ',' !in line then NoComma
    else
      var parts := Split(line, ',');
      if |parts| >= 2 then
        var channel := Strip(parts[0]);
        var url := Strip(parts[1]);
        if channel != [] && url != [] && IsValidUrl(url) then Accepted(Entry(channel, url)) else Rejected
      else
        Malformed
  }

  /** The entry a line contributes, if any. */
  function LineEntries(raw: string): seq<Entry>
  {
    match ClassifyLine(raw)
    case Accepted(e) => [e]
    case _ => []
  }

  /** The accepted entries of the lines, in line order. */
  function Entries(lines: seq<string>): seq<Entry>
  {
    FlatMap(lines, LineEntries)
  }

  /** The dictionary the delimited text denotes. */
  function TextSources(content: string): SourceMap
  {
    Collect(Entries(Split(content, '\n')))
  }

  /** The dictionary after one more line. */
  function NextSources(m: SourceMap, raw: string): SourceMap
  {
    match ClassifyLine(raw)
    case Accepted(e) => Append(m, e)
    case _ => m
  }

  /** `parse_text_content(content)`. */
  method ParseTextContent(content: string) returns (sources: SourceMap)
    ensures sources == TextSources(content)
  {
    sources := map[];
    var lines := Split(content, '\n');
    var i := 0;
    while i < |lines|
      invariant 0 <= i <= |lines|
      invariant sources == Collect(Entries(lines[..i]))
    {
      sources := AddTextLine(sources, lines[i]);
      TextStep(lines, i);
      i := i + 1;
    }
    assert lines[..i] == lines;
  }

  /** The body of the parsing loop for one line. */
  method AddTextLine(sources: SourceMap, raw: string) returns (next: SourceMap)
    ensures next == NextSources(sources, raw)
  {
    next := sources;
    var line := Strip(raw);
    if line != [] && !StartsWith(line, "#") {
      if ',' in line {
        var parts := Split(line, ',');
        if |parts| >= 2 {
          var channel := Strip(parts[0]);
          var url := Strip(parts[1]);
          if channel != [] && url != [] && IsValidUrl(url) {
            if channel !in next {
              next := next[channel := []];
            }
            next := next[channel := next[channel] + [url]];
            AppendInTwoSteps(sources, Entry(channel, url), next);
            assert ClassifyLine(raw) == Accepted(Entry(channel, url));
          } else {
            assert ClassifyLine(raw) == Rejected;
          }
        }
        // No `else`: the format-error branch is only logged, and it cannot
        // be reached (`NeverMalformed`).
      } else {
        assert ClassifyLine(raw) == NoComma;
      }
    } else {
      assert ClassifyLine(raw) == Skipped;
    }
  }

  /** Reading one more line moves the dictionary one `NextSources` step on. */
  lemma TextStep(lines: seq<string>, i: nat)
    requires i < |lines|
    ensures Collect(Entries(lines[..i + 1])) == NextSources(Collect(Entries(lines[..i])), lines[i])
  {
    assert lines[..i + 1][..i] == lines[..i];
    var es := Entries(lines[..i]);
    assert Entries(lines[..i + 1]) == es + LineEntries(lines[i]);
    match ClassifyLine(lines[i])
    case Accepted(e) =>
      assert es + LineEntries(lines[i]) == es + [e];
      assert (es + [e])[..|es|] == es;
    case _ =>
      assert es + LineEntries(lines[i]) == es;
  }

  /**
   * `_load_text_sources(file_path)` once the file has been read: an empty
   * (or unreadable, hence empty) file gives an empty dictionary straight
   * away, anything else goes through the same loop.
   */
  method LoadTextSources(content: string) returns (sources: SourceMap)
    ensures sources == TextSources(content)
    ensures content == "" ==> sources == map[]
  {
    if content == "" {
      sources := map[];
      EmptyText();
      return;
    }
    sources := ParseTextContent(content);
  }

  lemma EmptyText()
    ensures TextSources("") == map[]
  {
    assert Split("", '\n') == [""];
    assert Entries([""]) == Entries([]) + LineEntries("");
  }

  /** The `len(parts) >= 2` guard always holds: a line with a comma has two fields. */
  lemma NeverMalformed(raw: string)
    ensures ClassifyLine(raw) != Malformed
  {
    SplitAtLeastTwo(Strip(raw), ',');
  }

  /**
   * Only the first two comma fields of a line count, each stripped; whatever
   * follows the second comma is dropped.
   */
  lemma LineFields(raw: string, a: string, b: string, tail: string)
    requires Strip(raw) == a + "," + b + tail
    requires ',' !in a && ',' !in b && (tail == [] || tail[0] == ',')
    requires !StartsWith(Strip(raw), "#")
    ensures ClassifyLine(raw) ==
      if Strip(a) != [] && Strip(b) != [] && IsValidUrl(Strip(b)) then Accepted(Entry(Strip(a), Strip(b))) else Rejected
  {
    var line := Strip(raw);
    assert line == a + [','] + b + tail;
    FirstTwoPieces(a, b, tail, ',');
    assert line[|a|] == ',';
    StripEmptyOf(raw);
  }

  /** A stripped line that is empty comes from an all-whitespace line, which is skipped. */
  lemma StripEmptyOf(raw: string)
    ensures Strip(raw) == [] <==> AllSpace(raw)
  {
    StripEmpty(raw);
  }

  /**
   * A line adds an entry only when, after stripping, it is non-empty, is
   * not a comment and holds a comma.
   */
  lemma AcceptedNeedsComma(raw: string)
    requires ClassifyLine(raw).Accepted?
    ensures Strip(raw) != [] && Strip(raw)[0] != '#' && ',' in Strip(raw)
  {
  }

  /**
   * Every stored channel and URL is non-empty, stripped and comma-free,
   * and every stored URL passes `is_valid_url`.
   */
  lemma EntriesAreClean(lines: seq<string>)
    ensures forall k :: 0 <= k < |Entries(lines)| ==> CleanEntry(Entries(lines)[k])
  {
    forall raw ensures forall e :: e in LineEntries(raw) ==> CleanEntry(e) {
      LineEntryClean(raw);
    }
    FlatMapAll(lines, LineEntries, CleanEntry);
  }

  predicate CleanEntry(e: Entry) {
    && e.channel != [] && IsStripped(e.channel) && ',' !in e.channel
    && e.url != [] && IsStripped(e.url) && ',' !in e.url
    && IsValidUrl(e.url)
  }

  lemma LineEntryClean(raw: string)
    ensures forall e :: e in LineEntries(raw) ==> CleanEntry(e)
  {
    var line := Strip(raw);
    if ClassifyLine(raw).Accepted? {
      var parts := Split(line, ',');
      SplitPiecesClean(line, ',');
      StripChars(parts[0]);
      StripChars(parts[1]);
    }
  }

  /**
   * Each channel's list keeps input-line order: for text made of a first
   * part, a newline and a second part, a channel's URLs from the first part
   * come before those from the second.
   */
  lemma TextOrder(first: string, second: string, c: string)
    ensures UrlsOf(Entries(Split(first + "\n" + second, '\n')), c) ==
      UrlsOf(Entries(Split(first, '\n')), c) + UrlsOf(Entries(Split(second, '\n')), c)
  {
    assert first + "\n" + second == first + ['\n'] + second;
    SplitConcat(first, second, '\n');
    FlatMapConcat(Split(first, '\n'), Split(second, '\n'), LineEntries);
    UrlsOfConcat(Entries(Split(first, '\n')), Entries(Split(second, '\n')), c);
  }

  /**
   * The dictionary holds a channel exactly when some line is accepted for
   * it; its list is the URLs of those lines in order, never empty.
   */
  lemma TextSourcesAt(content: string, c: string)
    ensures c in TextSources(content) <==> UrlsOf(Entries(Split(content, '\n')), c) != []
    ensures c in TextSources(content) ==> TextSources(content)[c] == UrlsOf(Entries(Split(content, '\n')), c)
    ensures NonEmptyLists(TextSources(content))
  {
    CollectAt(Entries(Split(content, '\n')), c);
    CollectNonEmpty(Entries(Split(content, '\n')));
  }
}
