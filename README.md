# TVbox source updater, modelled in Dafny

This project models the core of the live-TV source updater in `main.py`,
which is built around `TVSourceUpdater`. The pipeline reads channel lists
and turns them into a dictionary from channel name to URL list. It merges
the dictionaries of the local file, the subscriptions and the template
file, caps and probes each channel's URLs, and renders the survivors as
sorted `channel,url` text. Beside the pipeline it models two pieces of
configuration handling:

- `EnhancedConfig._convert_value`, which converts one text setting into a
  typed value;
- `ConfigValidator`, which checks the configuration dictionary.

Modules, one per file:

| file | module | models |
|---|---|---|
| `wrappers.dfy` | `Wrappers` | `Option` and `Result` |
| `strings.dfy` | `Strings` | `str.strip` with Python's whitespace set, ASCII `lower`/`upper`, `startswith`/`endswith`, `str.split(',')` and `'\n'.join` |
| `decimal.dfy` | `Decimal` | `str(int)` and `int(str)`, including sign, surrounding whitespace and `_` digit groups |
| `utility.dfy` | `Utility` | `is_valid_url` (a model of `urlparse`'s scheme and network location) and `format_interval` |
| `ordering.dfy` | `Ordering` | the code-point string order used by `sorted()` and the sorted list of a set of names |
| `sourcemaps.dfy` | `SourceMaps` | the channel dictionary, building it by appends, and merging dictionaries with `dict.update` |
| `textparser.dfy` | `TextParser` | `parse_text_content` and `_load_text_sources` |
| `m3uparser.dfy` | `M3uParser` | `parse_m3u_content` |
| `aggregator.dfy` | `Aggregator` | `fetch_subscribe_content`, `load_subscribe_sources` and `collect_all_sources` |
| `sourcefilter.dfy` | `SourceFilter` | `filter_sources` |
| `resultwriter.dfy` | `ResultWriter` | `generate_result` |
| `config.dfy` | `Config` | `DefaultConfig` and `EnhancedConfig._convert_value` |
| `configvalidator.dfy` | `ConfigValidator` | `ConfigValidator.validate_all` and its helpers |

Each routine that builds its result by appending or updating in a loop is
a `method` with that loop. It is proved equal to a specification
function, and the properties are lemmas about that function. Network
calls, file contents, the clock and `float()` are parameters:

- a subscription GET is a `fetch: string -> Response`;
- the liveness probe `is_valid_source` is a `probe: string -> bool`;
- `os.path.exists` is a `pathExists: ConfigValue -> Option<bool>`;
- a file is given by its text and whether it exists;
- the header timestamp is a string;
- `float()` is a `parseFloat: string -> Option<real>`.

Where the design text and the code disagree, the model follows the code:

- **Merging:** `dict.update` replaces a channel's whole list with the list
  of the later source (template over subscriptions over local). It does
  not concatenate the lists.
- **Probing:** the probe fails closed. A timeout or an error counts as
  "not valid", and only status 200 after redirects counts as valid.
- **URL acceptance:** `urlparse` must give both a scheme and a network
  location. There is no permissive test on prefixes or suffixes.
- **Channel names:** an `#EXTINF:` line names its channel with the
  stripped text after its first comma, when that text is non-empty. It is
  not the text after the last comma.
- **Empty channels:** a channel whose probed list is empty is dropped.
- **Delimited URLs:** the URL is field 1 of `line.split(',')`, so
  anything after a second comma is dropped. It is not everything after
  the first comma.

## Model

| member | source | states |
|---|---|---|
| Strings.StripExactly | main.py:1096 | `line.strip()` is the text between an all-whitespace prefix and an all-whitespace suffix, and begins and ends with a non-whitespace character (Python's `isspace` set) |
| Strings.StripEmpty | main.py:1097 | a line strips to nothing exactly when every character is whitespace |
| Strings.StripIdem | main.py:1101-1102 | stripping an already stripped text changes nothing |
| Strings.LowerCaseFacts | main.py:553 | `value.lower()` keeps the length, leaves no ASCII capital, changes no other character and is idempotent |
| Strings.SplitAtLeastTwo | main.py:1098-1100 | `line.split(',')` has two or more pieces exactly when the line holds a comma |
| Strings.SplitJoinsBack | main.py:1093 | joining the pieces of `split` with the separator gives the text back |
| Strings.SplitPiecesClean | main.py:1099 | no piece of a split contains the separator |
| Strings.SplitPiecesWithout | main.py:1093 | a character absent from the text is absent from every piece |
| Strings.SplitJoin | main.py:1195 | splitting a join of separator-free pieces gives the pieces back |
| Strings.FirstTwoPieces | main.py:1099-1102 | fields 0 and 1 of `a,b...` are `a` and `b` whatever follows |
| Decimal.ToDecimalValue | main.py:1186-1187 | the decimal digits printed for a count denote that count |
| Decimal.ParseIntToString | main.py:562 | `int(str(i)) == i` for every integer, negative ones included |
| Utility.ValidUrlShape | main.py:210-212 | every `scheme://host[/path]` with a letter scheme and a plain host is accepted |
| Utility.FormatIntervalReadsBack | main.py:217-234 | reading back the text of `format_interval` gives the seconds below an hour, and the seconds truncated to whole minutes from an hour on |
| Utility.ReadMinutesSeconds | main.py:229-230 | the `分…秒` form reads back as `60 * m + s` |
| Utility.ReadHoursMinutes | main.py:231-234 | the `时…分` form reads back as `3600 * h + 60 * m` |
| Ordering.LessTransitive | main.py:1191 | the order `sorted()` uses on channel names is transitive |
| Ordering.LessTotal | main.py:1191 | any two distinct names are ordered one way or the other |
| Ordering.SortedNames | main.py:1191 | the sorted names are strictly ascending and are exactly the dictionary's keys, each once |
| SourceMaps.Append | main.py:1105-1107 | `sources.setdefault(c, []).append(u)`: the channel gets `u` at the end of its list, and no other channel changes |
| SourceMaps.AppendInTwoSteps | main.py:1105-1107 | creating the empty list and then appending is that same update |
| SourceMaps.CollectAt | main.py:1104-1107 | after a run of appends, a channel is present exactly when some entry names it, and its list holds that channel's URLs in entry order |
| SourceMaps.CollectNonEmpty | main.py:1105-1107 | every list built by appends is non-empty |
| SourceMaps.OverlayKeys | main.py:899-911 | after successive `update`s, a channel is present exactly when one of the merged dictionaries has it |
| SourceMaps.OverlayLastWins | main.py:899-911 | its list is the whole list of the last dictionary that has it |
| SourceMaps.OverlayConcat | main.py:1006-1010 | merging in two batches equals merging all at once |
| SourceMaps.OverlayEmpty | main.py:1039-1047 | an empty dictionary in the sequence leaves the merge unchanged |
| TextParser.ParseTextContent | main.py:1082-1113 | the loop's dictionary equals the specification `TextSources(content)` |
| TextParser.AddTextLine | main.py:1096-1111 | one loop iteration: skip, log, or append the line's entry |
| TextParser.LoadTextSources | main.py:935-973 | the file variant gives the same dictionary, and an empty file gives an empty one |
| TextParser.NeverMalformed | main.py:1100-1109 | the "format error" branch is unreachable: a line with a comma always splits into two or more fields |
| TextParser.LineFields | main.py:1098-1107 | a line `a,b...` is accepted exactly when the stripped `a` and `b` are non-empty and `b` is a valid URL, as the entry (`a`, `b`) |
| TextParser.AcceptedNeedsComma | main.py:1097-1098 | an accepted line is non-blank, not a comment, and holds a comma |
| TextParser.LineEntryClean | main.py:1101-1104 | every accepted entry has a non-empty, stripped, comma-free channel and a valid, stripped, comma-free URL |
| TextParser.EntriesAreClean | main.py:1095-1107 | the same holds for every entry of a whole text |
| TextParser.TextOrder | main.py:1095 | lines are read in order: a channel's URLs from a text are those from its first part followed by those from the rest |
| TextParser.TextSourcesAt | main.py:1104-1107 | a channel is in the parsed dictionary exactly when some accepted line names it; its list holds those URLs in line order and is never empty |
| TextParser.EmptyText | main.py:948-950 | empty content gives an empty dictionary |
| M3uParser.ParseM3uContent | main.py:1049-1080 | the state-machine loop equals the specification `M3uSources(content)` |
| M3uParser.AddM3uLine | main.py:1065-1078 | one iteration updates the dictionary and the pending channel as the specification step does |
| M3uParser.ExtinfNameAfterComma | main.py:1066-1070 | the regex `,(.+)$` takes the stripped text after the first comma, and no name when nothing follows that comma |
| M3uParser.ExtinfNameNoComma | main.py:1068-1069 | an `#EXTINF:` line without a comma names no channel |
| M3uParser.LineOfCases | main.py:1065-1072 | a name line starts with `#EXTINF:` and has a non-empty name; a URL line is the stripped, non-empty, non-`#` line, and its validity is `is_valid_url` |
| M3uParser.PendingFromLatest | main.py:1061-1078 | a channel is pending exactly when it came from the latest name line and no URL line has come since |
| M3uParser.UrlLineClears | main.py:1077-1078 | a URL line always clears the pending channel |
| M3uParser.UrlLineAttribution | main.py:1071-1076 | a URL line adds the entry (`c`, url) exactly when the URL is valid and `c` is pending |
| M3uParser.SecondUrlIgnored | main.py:1071 | a second URL line in a row adds nothing and changes no state |
| M3uParser.OtherLinesAddNothing | main.py:1064-1071 | name, comment and blank lines never add an entry |
| M3uParser.NeverEmptyChannel | main.py:1069-1071 | the pending channel is never the empty name |
| M3uParser.M3uSourcesAt | main.py:1073-1076 | a channel is in the playlist dictionary exactly when some URL line was attributed to it; its list holds those URLs in order and is never empty |
| Aggregator.FetchSubscribeContent | main.py:1014-1047 | status 200 parses the body, as a playlist when the URL ends in `.m3u` or `.m3u8` and as delimited text otherwise; any other status or a failure gives an empty dictionary |
| Aggregator.SubscribeList | main.py:989-990 | the list comprehension equals `SubscriptionUrls`: the stripped lines that are non-blank and whose raw text does not start with `#`, in file order |
| Aggregator.SubscriptionUrlsAre | main.py:989-990 | a URL is listed exactly when some line strips to it, it is non-empty and that line's raw text does not start with `#`; every listed URL is stripped |
| Aggregator.LoadSubscribeSources | main.py:975-1012 | the result is the `update`-merge, in list order, of the fetched dictionaries of the valid subscription URLs; a missing or empty list gives an empty dictionary |
| Aggregator.AddTask | main.py:998-1010 | a valid URL's fetched dictionary is merged in; an invalid one is skipped |
| Aggregator.CollectAllSources | main.py:887-915 | the result is local, then subscriptions, then template merged with `update`, each only when switched on (the template only when its file exists) |
| Aggregator.CollectedKeys | main.py:894-915 | a channel is collected exactly when an enabled source has it |
| Aggregator.CollectedPrecedence | main.py:899-911 | its list is the template's if the template has it, else the subscriptions', else the local file's |
| Aggregator.SubscriptionMerge | main.py:1006-1010 | among subscriptions, the last one that has a channel decides its list |
| Aggregator.FailedTaskIgnored | main.py:1039-1047 | a subscription that is invalid, fails or answers a status other than 200 leaves the merge of the others unchanged |
| SourceFilter.Take | main.py:1131 | `urls[:limit]` is a prefix, of length `limit` capped by the list, with Python's meaning for a negative limit |
| SourceFilter.CheckUrls | main.py:1128-1139 | one channel's loop keeps exactly the probe's survivors among the capped URLs |
| SourceFilter.FilterSources | main.py:1115-1147 | the result maps each channel with survivors to its survivors, and drops the others |
| SourceFilter.SurvivorsInOrder | main.py:1137-1139 | survivors keep the input order (a subsequence) |
| SourceFilter.SurvivorsExactly | main.py:1137-1139 | a URL survives exactly when it is in the input and the probe accepts it |
| SourceFilter.SurvivorsShorter | main.py:1137-1139 | there are never more survivors than inputs |
| SourceFilter.SurvivorsIdempotent | main.py:1137-1139 | probing the survivors again with a probe that answers the same removes nothing |
| SourceFilter.SurvivorsCount | main.py:1137-1139 | each accepted URL survives as many times as it occurs, duplicates included; a refused one not at all |
| SourceFilter.FilteredLists | main.py:1127-1144 | every kept list is non-empty, an in-order subsequence of the capped URLs holding each accepted URL as often as they do and nothing else, and at most `limit` long |
| SourceFilter.FilteredDrops | main.py:1143-1144 | a channel is dropped exactly when the probe accepts none of its capped URLs |
| SourceFilter.FilterIdempotent | main.py:1115-1147 | filtering an already filtered dictionary with a probe that answers the same changes nothing (limit at least 0) |
| ResultWriter.GenerateResult | main.py:1169-1195 | the loop's text equals the specification `Render` |
| ResultWriter.AddHeader | main.py:1182-1188 | the five header lines are appended |
| ResultWriter.AddBody | main.py:1191-1193 | one `channel,url` line per URL, channels in sorted order |
| ResultWriter.LineCount | main.py:1179-1193 | the result has five header lines when switched on plus one line per URL |
| ResultWriter.HeaderReports | main.py:1184-1188 | the header lines are the title, the time, the channel count, the total URL count, and an empty line |
| ResultWriter.EmptyRender | main.py:1195 | an empty dictionary without header renders as the empty string |
| ResultWriter.BodyAscending | main.py:1191 | body lines come in ascending channel order |
| ResultWriter.BodyUrls | main.py:1191-1193 | a channel's body lines carry its whole URL list in order, and only rendered channels appear |
| ResultWriter.CollectBody | main.py:1191-1193 | collecting the body entries back gives the dictionary |
| ResultWriter.RoundTrip | main.py:1169-1195 | parsing the rendered text as delimited text gives back any representable dictionary, with or without the header |
| ResultWriter.ParsedRepresentable | main.py:1082-1113 | every dictionary read from delimited text is representable, so it survives rendering and reading back |
| ResultWriter.HeaderIsComments | main.py:1184-1188 | every header line is blank or a `#` comment, so the parser skips it |
| ResultWriter.BodyLinesRead | main.py:1193 | each body line parses back to its own entry |
| Config.LookupFinds | main.py:545-549 | a default is found exactly when an attribute has that name, and it is the first such attribute's value |
| Config.BlankGivesDefault | main.py:545-549 | a blank value gives the key's default, or `''` when the key has none |
| Config.BooleanWords | main.py:552-553 | a boolean key's non-blank value is true exactly when its lower-case form is `true`, `yes`, `1` or `on`, and false otherwise |
| Config.BooleanIgnoresCase | main.py:552-553 | upper-casing the value never changes what a boolean key converts to |
| Config.IntegerKind | main.py:556-560 | every integer key takes the integer branch, not the boolean one |
| Config.IntegerRoundTrip | main.py:560-562 | an integer key converts `str(i)` back to `i` |
| Config.IntegerKeysParse | main.py:560-562 | whenever `int(value)` succeeds, an integer key converts to that integer |
| Config.RegionKind | main.py:577 | both region keys take the region-list branch |
| Config.RegionAll | main.py:578-579 | `全部` gives `['全部']` |
| Config.RegionList | main.py:580 | any other non-blank value gives the stripped non-empty comma pieces, each non-empty, stripped and comma-free |
| Config.RegionItemsAre | main.py:580 | an item is kept exactly when it is the non-empty stripped form of some piece |
| Config.RegionRoundTrip | main.py:577-580 | a list of clean items, written back joined by commas, converts to that same list |
| ConfigValidator.ValidateRequiredSettings | main.py:386-406 | appends to the caller's list the missing-setting errors, in list order |
| ConfigValidator.ValidateBooleanSettings | main.py:408-431 | appends a warning for each listed setting present with a value that is not a boolean |
| ConfigValidator.ValidateNumericSettings | main.py:433-461 | appends a warning for each present, non-`None` value outside its bounds; reports the `TypeError` a text or list value raises |
| ConfigValidator.ValidateFileExistence | main.py:464-482 | appends `FileWarnings` and reports an exception from the existence test |
| ConfigValidator.FileCheckExactly | main.py:473-474 | one check raises exactly when switched on and the test raises; otherwise it warns once exactly when switched on and the file is missing |
| ConfigValidator.FileWarningsExactly | main.py:464-482 | raises exactly when a switched-on check's test raises; otherwise warns for the source, local and subscription file, in that order, exactly when the check is on and the file is missing |
| ConfigValidator.SourceFileWarning | main.py:473-474 | a source-file warning is reported exactly when `open_update` is truthy and `source_file` does not exist; only missing-file warnings are reported |
| ConfigValidator.ValidateAll | main.py:356-384 | the verdict is "no errors", the report is errors then warnings, and any exception turns the answer into `(False, [failure])` |
| ConfigValidator.MissingSettingsExactly | main.py:402-404 | a missing-setting error is reported exactly for each listed name absent from the dictionary |
| ConfigValidator.NoMissingSettings | main.py:402-404 | there are no errors exactly when all required settings are present |
| ConfigValidator.BooleanWarningsExactly | main.py:426-429 | a boolean warning is reported exactly for a listed setting present with a non-boolean value |
| ConfigValidator.NumericRaises | main.py:456-459 | the range check raises exactly when some checked setting holds a text or a list |
| ConfigValidator.NumericWarningsExactly | main.py:456-459 | without a raise, a range warning is reported exactly for each present non-`None` value outside its bounds |
| ConfigValidator.InclusiveBounds | main.py:458 | both bounds are inclusive, reals compare as numbers, and booleans compare as 0 and 1 |
| ConfigValidator.ValidationVerdict | main.py:370-384 | for any lists of settings and any outcome of the file checks: valid exactly when nothing raised and every required setting is present; otherwise the report is the single failure or starts with the missing-setting errors |

## Left out

- Network I/O: the aiohttp session, the GET in `fetch_subscribe_content` and the HEAD in `is_valid_source` are parameters (`fetch`, `probe`). Timeouts and exceptions are the `Failure` response or a `false` probe answer.
- Concurrency: `asyncio.gather` in `load_subscribe_sources` and `filter_sources` is sequential iteration in list order. Results are merged in task order either way.
- File I/O: `read_file_content`, the cache, `get_file_stats` and `ensure_directories` are out. A file is its text (an unreadable file reads as empty) plus whether it exists.
- `ConfigManager`, `configparser`, `EnhancedConfig.get`, `to_dict` and `__getattr__` are out. `_setup_defaults` copies every default onto the instance, so `get` answers a known key from the defaults before it looks at the file.
- `DefaultTable`: the conversion takes the defaults table as a parameter. Lemmas about particular entries of the literal table (for example that every boolean key's default is a boolean) are not stated. A blank region-list value yields the default text `全部`, not a list.
- Config.ConvertValue: `min_speed` uses the `parseFloat` parameter instead of Python's `float()`, since floating point is not modelled.
- Strings.LowerCase: only ASCII letters change case. Python's `lower`/`upper` on other scripts is not modelled.
- Decimal.ParseInt: `int()` accepts ASCII digits, an optional sign, surrounding whitespace and single underscores between digits. Other Unicode decimal digits are not modelled.
- Utility.IsValidUrl (`is_valid_url`, main.py:200-214, a predicate: non-empty scheme, non-empty network location, no unmatched bracket): models the parts of `urlsplit` that decide scheme and network location: sanitising, the scheme characters, the `//` authority and the bracket check. It does not model the IPv6 address validation inside brackets, the port check, or `_checknetloc`. That check rejects a non-ASCII network location whose NFKC normal form gains one of `/?#@:` (as `http://℀.com` does), so such a URL is accepted by the model but refused by the program.
- Utility.FormatInterval: whole seconds only. Python accepts a float here.
- Logging: all messages, including the subscription failure message that indexes `subscribe_urls` by the task index, are out, because they are output only.
- Message wording: validator messages are the `Diagnostic` datatype, not the formatted Chinese strings.
- `datetime.now()` in the header is the `timestamp` parameter.
- `_log_statistics` is out, because its percentage is floating point.
- The command-line interface and `main` are out, because they are UI and process control.
