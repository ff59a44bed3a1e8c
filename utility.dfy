/**
 * The updater's static helpers: the URL check used by every parser
 * (`Utility.is_valid_url`, a wrapper around `urllib.parse.urlparse`) and the
 * duration text of the statistics log (`Utility.format_interval`).
 */
module Utility {
  import opened Wrappers
  import opened Strings
  import opened Decimal

  /** Position of the first character of `s` in `stops`, or `|s|`. */
  function IndexOfAny(s: string, stops: set<char>): (i: nat)
    ensures i <= |s| && forall k :: 0 <= k < i ==> s[k] !in stops
    ensures i < |s| ==> s[i] in stops
  {
    if s == [] || s[0] in stops then 0 else 1 + IndexOfAny(s[1..], stops)
  }

  predicate IsAsciiLetter(c: char) {
    ('a' <= c <= 'z') || ('A' <= c <= 'Z')
  }

  /** The characters `urlsplit` allows in a scheme. */
  predicate IsSchemeChar(c: char) {
    IsAsciiLetter(c) || ('0' <= c <= '9') || c == '+' || c == '-' || c == '.'
  }

  /** `urlsplit`'s first steps: drop leading C0 controls and spaces, then every tab, CR and LF. */
  function Sanitize(url: string): (r: string)
    ensures forall c :: c in r ==> c in url && c != '\t' && c != '\r' && c != '\n'
  {
    RemoveUnsafe(DropLeadingControls(url))
  }

  function DropLeadingControls(s: string): (r: string)
    ensures forall c :: c in r ==> c in s
    ensures r == [] || r[0] > ' '
    ensures s == [] || s[0] > ' ' ==> r == s
  {
    if s != [] && s[0] <= ' ' then DropLeadingControls(s[1..]) else s
  }

  function RemoveUnsafe(s: string): (r: string)
    ensures forall c :: c in r ==> c in s && c != '\t' && c != '\r' && c != '\n'
    ensures (forall k :: 0 <= k < |s| ==> s[k] != '\t' && s[k] != '\r' && s[k] != '\n') ==> r == s
  {
    if s == [] then ""
    else if s[0] == '\t' || s[0] == '\r' || s[0] == '\n' then RemoveUnsafe(s[1..])
    else [s[0]] + RemoveUnsafe(s[1..])
  }

  /** Length of the scheme `urlsplit` recognises, or 0 when it finds none. */
  function SchemeLength(url: string): nat
  {
    var i := Find(url, ':');
    if 0 < i < |url| && IsAsciiLetter(url[0]) && forall k :: 0 <= k < i ==> IsSchemeChar(url[k]) then i else 0
  }

  /** The network location: after the scheme, what follows `//` up to `/`, `?` or `#`. */
  function Netloc(url: string): string
  {
    var n := SchemeLength(url);
    var rest := if n > 0 then url[n + 1..] else url;
    if StartsWith(rest, "//") then
      var tail := rest[2..];
      tail[..IndexOfAny(tail, {'/', '?', '#'})]
    else ""
  }

  /**
   * `Utility.is_valid_url`: `urlparse(url)` has a non-empty scheme and a
   * non-empty network location. A network location with an unmatched
   * bracket makes `urlsplit` raise `ValueError`, which the helper turns
   * into `False`.
   */
  predicate IsValidUrl(url: string)
  {
    var u := Sanitize(url);
    var host := Netloc(u);
    && SchemeLength(u) > 0
    && host != ""
    && (('[' in host) == (']' in host))
  }

  /** Characters that end the network location or that `urlsplit` treats specially. */
  predicate IsHostChar(c: char) {
    c > ' ' && c !in {'/', '?', '#', '[', ']', ':'}
  }

  /**
   * The usual shape is accepted: a scheme of letters, `://`, a non-empty
   * host, then nothing or a path.
   */
  lemma ValidUrlShape(scheme: string, host: string, path: string)
    requires scheme != [] && forall k :: 0 <= k < |scheme| ==> IsAsciiLetter(scheme[k])
    requires host != [] && forall k :: 0 <= k < |host| ==> IsHostChar(host[k])
    requires path == [] || path[0] == '/'
    requires forall k :: 0 <= k < |path| ==> path[k] != '\t' && path[k] != '\r' && path[k] != '\n'
    ensures IsValidUrl(scheme + "://" + host + path)
  {
    var url := scheme + "://" + host + path;
    ShapeIsSanitized(scheme, host, path);
    ShapeScheme(scheme, host + path);
    assert url == scheme + "://" + (host + path);
    ShapeNetloc(scheme, host, path);
  }

  lemma ShapeIsSanitized(scheme: string, host: string, path: string)
    requires scheme != [] && forall k :: 0 <= k < |scheme| ==> IsAsciiLetter(scheme[k])
    requires forall k :: 0 <= k < |host| ==> IsHostChar(host[k])
    requires forall k :: 0 <= k < |path| ==> path[k] != '\t' && path[k] != '\r' && path[k] != '\n'
    ensures Sanitize(scheme + "://" + host + path) == scheme + "://" + host + path
  {
    var url := scheme + "://" + host + path;
    assert url[0] == scheme[0];
    forall k | 0 <= k < |url| ensures url[k] != '\t' && url[k] != '\r' && url[k] != '\n' {
      if k < |scheme| { assert url[k] == scheme[k]; }
      else if k < |scheme| + 3 { }
      else if k < |scheme| + 3 + |host| { assert url[k] == host[k - |scheme| - 3]; }
      else { assert url[k] == path[k - |scheme| - 3 - |host|]; }
    }
  }

  lemma ShapeScheme(scheme: string, rest: string)
    requires scheme != [] && forall k :: 0 <= k < |scheme| ==> IsAsciiLetter(scheme[k])
    ensures SchemeLength(scheme + "://" + rest) == |scheme|
  {
    var url := scheme + "://" + rest;
    assert url[..|scheme|] == scheme && url[|scheme|] == ':';
    assert Find(url, ':') == |scheme|;
    assert url[0] == scheme[0];
    forall k | 0 <= k < |scheme| ensures IsSchemeChar(url[k]) { assert url[k] == scheme[k]; }
  }

  lemma ShapeNetloc(scheme: string, host: string, path: string)
    requires SchemeLength(scheme + "://" + host + path) == |scheme| > 0
    requires host != [] && forall k :: 0 <= k < |host| ==> IsHostChar(host[k])
    requires path == [] || path[0] == '/'
    ensures Netloc(scheme + "://" + host + path) == host
    ensures '[' !in host && ']' !in host
  {
    var url := scheme + "://" + host + path;
    var rest := url[|scheme| + 1..];
    assert rest == "//" + host + path;
    var tail := rest[2..];
    assert tail == host + path;
    HostEnds(host, path);
    assert tail[..|host|] == host;
  }

  lemma {:induction false} HostEnds(host: string, path: string)
    requires forall k :: 0 <= k < |host| ==> IsHostChar(host[k])
    requires path == [] || path[0] == '/'
    ensures IndexOfAny(host + path, {'/', '?', '#'}) == |host|
    decreases |host|
  {
    if host != [] {
      assert (host + path)[1..] == host[1..] + path;
      HostEnds(host[1..], path);
    }
  }

  /**
   * `Utility.format_interval` on a whole number of seconds: seconds below a
   * minute, minutes and seconds below an hour, hours and minutes above.
   */
  function FormatInterval(seconds: nat): string
  {
    if seconds < 60 then ToDecimal(seconds) + "秒"
    else if seconds < 3600 then ToDecimal(seconds / 60) + "分" + ToDecimal(seconds % 60) + "秒"
    else ToDecimal(seconds / 3600) + "时" + ToDecimal(seconds % 3600 / 60) + "分"
  }

  /** Length of the run of digits that starts `s`. */
  function DigitRun(s: string): (n: nat)
    ensures n <= |s| && AllDigits(s[..n])
    ensures n < |s| ==> !IsDigit(s[n])
  {
    if s == [] || !IsDigit(s[0]) then 0
    else
      var n := DigitRun(s[1..]);
      assert s[..1 + n] == [s[0]] + s[1..][..n];
      1 + n
  }

  /** A leading decimal number and the text after it. */
  function ReadNumber(s: string): Option<(nat, string)>
  {
    var n := DigitRun(s);
    if n == 0 then None else Some((DigitsValue(s[..n]), s[n..]))
  }

  /** Reads the text that `FormatInterval` writes back as a number of seconds. */
  function ReadInterval(t: string): Option<nat>
  {
    match ReadNumber(t)
    case None => None
    case Some((a, r)) => ReadUnits(a, r)
  }

  /** The units that follow the leading number `a` of an interval text. */
  function ReadUnits(a: nat, r: string): Option<nat>
  {
      if r == "秒" then Some(a)
      else if r == [] then None
      else if r[0] == '分' then
        match ReadLast(r[1..], '秒')
        case None => None
        case Some(b) => Some(60 * a + b)
      else if r[0] == '时' then
        match ReadLast(r[1..], '分')
        case None => None
        case Some(b) => Some(3600 * a + 60 * b)
      else None
  }

  /** A number followed by exactly the given unit. */
  function ReadLast(s: string, unit: char): Option<nat>
  {
    match ReadNumber(s)
    case None => None
    case Some((b, r)) => if r == [unit] then Some(b) else None
  }

  lemma ReadNumberDigits(d: string, rest: string)
    requires d != [] && AllDigits(d)
    requires rest == [] || !IsDigit(rest[0])
    ensures ReadNumber(d + rest) == Some((DigitsValue(d), rest))
  {
    DigitRunOf(d, rest);
    assert (d + rest)[..|d|] == d && (d + rest)[|d|..] == rest;
  }

  lemma {:induction false} DigitRunOf(d: string, rest: string)
    requires AllDigits(d)
    requires rest == [] || !IsDigit(rest[0])
    ensures DigitRun(d + rest) == |d|
    decreases |d|
  {
    if d != [] {
      assert (d + rest)[1..] == d[1..] + rest;
      DigitRunOf(d[1..], rest);
    } else {
      assert d + rest == rest;
    }
  }

  /**
   * The interval text denotes the duration exactly below an hour and to the
   * minute from an hour on.
   */
  lemma FormatIntervalReadsBack(seconds: nat)
    ensures ReadInterval(FormatInterval(seconds)) == Some(if seconds < 3600 then seconds else seconds - seconds % 60)
  {
    if seconds < 60 {
      ToDecimalValue(seconds);
      ReadNumberDigits(ToDecimal(seconds), "秒");
    } else if seconds < 3600 {
      ReadMinutesSeconds(seconds / 60, seconds % 60);
    } else {
      ReadHoursMinutes(seconds / 3600, seconds % 3600 / 60);
    }
  }

  lemma ReadMinutesSeconds(m: nat, s: nat)
    ensures ReadInterval(ToDecimal(m) + "分" + ToDecimal(s) + "秒") == Some(60 * m + s)
  {
    ReadNumberDecimal(m, "分" + ToDecimal(s) + "秒");
    ReadLastDecimal(s, '秒');
    ReadMinutesText(ToDecimal(m), ToDecimal(s), m, s);
  }

  lemma ReadHoursMinutes(h: nat, m: nat)
    ensures ReadInterval(ToDecimal(h) + "时" + ToDecimal(m) + "分") == Some(3600 * h + 60 * m)
  {
    ReadNumberDecimal(h, "时" + ToDecimal(m) + "分");
    ReadLastDecimal(m, '分');
    ReadHoursText(ToDecimal(h), ToDecimal(m), h, m);
  }

  lemma ReadMinutesText(da: string, db: string, m: nat, s: nat)
    requires ReadNumber(da + ("分" + db + "秒")) == Some((m, "分" + db + "秒"))
    requires ReadLast(db + "秒", '秒') == Some(s)
    ensures ReadInterval(da + "分" + db + "秒") == Some(60 * m + s)
  {
    var r := "分" + db + "秒";
    assert da + "分" + db + "秒" == da + r;
    assert r[1..] == db + "秒";
    UnitsMinutes(m, r, s);
  }

  lemma ReadHoursText(da: string, db: string, h: nat, m: nat)
    requires ReadNumber(da + ("时" + db + "分")) == Some((h, "时" + db + "分"))
    requires ReadLast(db + "分", '分') == Some(m)
    ensures ReadInterval(da + "时" + db + "分") == Some(3600 * h + 60 * m)
  {
    var r := "时" + db + "分";
    assert da + "时" + db + "分" == da + r;
    assert r[1..] == db + "分";
    UnitsHours(h, r, m);
  }

  lemma ReadNumberDecimal(n: nat, r: string)
    requires r == [] || !IsDigit(r[0])
    ensures ReadNumber(ToDecimal(n) + r) == Some((n, r))
  {
    ToDecimalValue(n);
    ReadNumberDigits(ToDecimal(n), r);
  }

  lemma ReadLastDecimal(n: nat, unit: char)
    requires !IsDigit(unit)
    ensures ReadLast(ToDecimal(n) + [unit], unit) == Some(n)
  {
    ReadNumberDecimal(n, [unit]);
  }

  lemma UnitsMinutes(a: nat, r: string, b: nat)
    requires |r| > 1 && r[0] == '分' && ReadLast(r[1..], '秒') == Some(b)
    ensures ReadUnits(a, r) == Some(60 * a + b)
  {
  }

  lemma UnitsHours(a: nat, r: string, b: nat)
    requires |r| > 1 && r[0] == '时' && ReadLast(r[1..], '分') == Some(b)
    ensures ReadUnits(a, r) == Some(3600 * a + 60 * b)
  {
  }
}
