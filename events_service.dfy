/**
 * The text helpers of the listing scraper (`EventParser`): tag and location
 * cleanup, description normalisation, showtime parsing and the category taken
 * from the listing URL.
 */
module EventsService {
  import opened Wrappers
  import opened PyStr
  import opened Strptime

  /** U+200E LEFT-TO-RIGHT MARK, which the site sprinkles into tag texts. */
  const Lrm: char := '\U{200e}'

  /** The characters of the regex class `[\s-]`. */
  predicate IsGap(c: char) {
    IsSpace(c) || c == '-'
  }

  // ------------------------------------------------------------ clean_text

  /**
   * The regex `[\s-]*\d{4,}` matches `t[i..]` with the digits starting at `k`:
   * gap characters on `[i, k)`, at least four digits on `[k, |t|)`.
   */
  predicate SuffixMatch(t: string, i: int, k: int) {
    && 0 <= i <= k && k + 4 <= |t|
    && (forall j :: i <= j < k ==> IsGap(t[j]))
    && (forall j :: k <= j < |t| ==> IsDigit(t[j]))
  }

  /** Removes a trailing run of 4+ digits together with the gap characters before it. */
  function CutAtEnd(t: string): (r: string)
    ensures |r| <= |t| && r == t[..|r|]
  {
    var d := TrailingCount(t, IsDigit);
    if d < 4 then t
    else
      var u := t[..|t| - d];
      var w := TrailingCount(u, IsGap);
      u[..|u| - w]
  }

  /**
   * `CutAtEnd` is what `re.sub` does with the anchored pattern: it cuts at the
   * leftmost position where the pattern matches up to the end, and leaves the
   * text alone when it matches nowhere.
   */
  lemma CutAtEndIsLeftmostMatch(t: string)
    ensures CutAtEnd(t) == t <==> forall i, k :: !SuffixMatch(t, i, k)
    ensures CutAtEnd(t) != t ==> SuffixMatch(t, |CutAtEnd(t)|, |t| - TrailingCount(t, IsDigit))
    ensures forall i, k :: SuffixMatch(t, i, k) ==> |CutAtEnd(t)| <= i
  {
    var d := TrailingCount(t, IsDigit);
    var r := CutAtEnd(t);
    forall i, k | SuffixMatch(t, i, k) ensures d >= 4 && |r| < |t| && |r| <= i {
      MatchIsNotBeforeCut(t, i, k);
    }
    if d >= 4 {
      var u := t[..|t| - d];
      var w := TrailingCount(u, IsGap);
      assert SuffixMatch(t, |r|, |t| - d);
    }
  }

  lemma MatchIsNotBeforeCut(t: string, i: int, k: int)
    requires SuffixMatch(t, i, k)
    ensures TrailingCount(t, IsDigit) >= 4
    ensures |CutAtEnd(t)| < |t| && |CutAtEnd(t)| <= i
  {
    var d := TrailingCount(t, IsDigit);
    if d < |t| {
      // the character before the trailing digits stops the digit run of the match
      assert !IsDigit(t[|t| - 1 - d]);
    }
    assert k >= |t| - d;
    var u := t[..|t| - d];
    var w := TrailingCount(u, IsGap);
    if w < |u| {
      // the character before the trailing gaps stops the gap run of the match
      assert !IsGap(t[|u| - 1 - w]) by { assert u[|u| - 1 - w] == t[|u| - 1 - w]; }
    }
  }

  /**
   * `re.sub(r"[\s-]*\d{4,}$", "", s)`. `$` also matches just before a final
   * newline, so a text ending in `"\n"` loses the number in front of it.
   */
  function CutNumberSuffix(s: string): (r: string)
    ensures |r| <= |s|
  {
    if |s| > 0 && s[|s| - 1] == '\n' then CutAtEnd(s[..|s| - 1]) + "\n" else CutAtEnd(s)
  }

  /**
   * Before a final newline `$` matches ahead of it: the cut applies to the text
   * before the newline, the newline stays, and nothing changes exactly when that
   * text has no match.
   */
  lemma CutBeforeNewline(u: string)
    ensures CutNumberSuffix(u + "\n") == CutAtEnd(u) + "\n"
    ensures CutNumberSuffix(u + "\n") == u + "\n" <==> forall i, k :: !SuffixMatch(u, i, k)
  {
    var s := u + "\n";
    assert s[..|s| - 1] == u;
    CutAtEndIsLeftmostMatch(u);
    var r := CutAtEnd(u);
    if r + "\n" == s {
      assert |r| == |u|;
      assert r == (r + "\n")[..|r|];
    }
  }

  /** The characters `[\d\s+\-()]` of the phone-number check. */
  predicate IsPhoneChar(c: char) {
    IsDigit(c) || IsSpace(c) || c == '+' || c == '-' || c == '(' || c == ')'
  }

  /** More than five digits and nothing but phone-number characters. */
  predicate LooksLikePhone(t: string) {
    CountDigits(t) > 5 && forall i :: 0 <= i < |t| ==> IsPhoneChar(t[i])
  }

  /** The text `clean_text` works on before its final checks. */
  function Cleaned(text: string): (t: string)
    ensures Lrm !in t
    ensures t == [] || (!IsSpace(t[0]) && !IsSpace(t[|t| - 1]))
  {
    var t := Strip(CutNumberSuffix(Replace(text, Lrm, "")));
    StripKeepsOut(CutNumberSuffix(Replace(text, Lrm, "")), Lrm);
    t
  }

  lemma StripKeepsOut(s: string, c: char)
    requires c !in s
    ensures c !in Strip(s)
  {
    var r := Strip(s);
    var i := LeadingCount(s, IsSpace);
    forall k | 0 <= k < |r| ensures r[k] != c {
      assert r[k] == s[i + k];
    }
  }

  /**
   * `EventParser.clean_text`: drops every U+200E, cuts one trailing number of
   * four or more digits with the spaces and hyphens before it, trims, and gives
   * `None` for an empty result or, with `filterDigits`, for a phone number.
   */
  function CleanText(text: string, filterDigits: bool): (r: Option<string>)
    ensures r.Some? <==> text != "" && Kept(Cleaned(text), filterDigits)
    ensures r.Some? ==> r.value == Cleaned(text)
    ensures r.Some? ==> r.value != "" && Lrm !in r.value
    ensures filterDigits && r.Some? ==> !LooksLikePhone(r.value)
  {
    if text == "" then None
    else
      var t := Cleaned(text);
      if filterDigits && LooksLikePhone(t) then None
      else if t == "" then None
      else Some(t)
  }

  /** The text `clean_text` gives back is trimmed: stripping it again changes nothing. */
  lemma CleanTextIsStripped(text: string, filterDigits: bool)
    requires CleanText(text, filterDigits).Some?
    ensures Strip(CleanText(text, filterDigits).value) == CleanText(text, filterDigits).value
  {
    StripOfStripped(Cleaned(text));
  }

  /** What `clean_text` keeps once cleaned: a non-empty text, and with `filterDigits` no phone number. */
  predicate Kept(t: string, filterDigits: bool) {
    t != "" && !(filterDigits && LooksLikePhone(t))
  }

  /** The phone-number rule is the only difference the flag makes. */
  lemma FilterDigitsOnlyDropsPhones(text: string)
    ensures CleanText(text, true) == CleanText(text, false) || (CleanText(text, true) == None && LooksLikePhone(Cleaned(text)))
  {
  }

  // ------------------------------------------------------------ normalize_description

  /** `desc.strip().lower().replace('\n', ' ').replace('\r', '')`. */
  function Normalized(desc: string): string {
    Replace(Replace(Lower(Strip(desc)), '\n', " "), '\r', "")
  }

  /** `EventParser.normalize_description`. */
  function NormalizeDescription(desc: Option<string>): (r: Option<string>)
    ensures r.Some? <==> desc.Some? && desc.value != ""
    ensures r.Some? ==> r.value == Normalized(desc.value)
    ensures r.Some? ==> '\n' !in r.value && '\r' !in r.value
    ensures r.Some? ==> Strip(r.value) == r.value
    ensures r.Some? ==> Lower(r.value) == r.value
  {
    if desc.None? || desc.value == "" then None
    else
      var r := Normalized(desc.value);
      NormalizedShape(desc.value);
      Some(r)
  }

  predicate IsLowered(s: string) {
    forall i :: 0 <= i < |s| ==> LowerChar(s[i]) == s[i]
  }

  lemma LowerCharIdempotent(c: char)
    ensures LowerChar(LowerChar(c)) == LowerChar(c)
  {
  }

  lemma LoweredReplace(s: string, c: char, rep: string)
    requires IsLowered(s) && IsLowered(rep)
    ensures IsLowered(Replace(s, c, rep))
  {
    var r := Replace(s, c, rep);
    ReplaceMembers(s, c, rep);
    forall i | 0 <= i < |r| ensures LowerChar(r[i]) == r[i] {
      assert r[i] in r;
    }
  }

  /** Replacing a character that is neither first nor last keeps both ends. */
  lemma {:induction false} ReplaceKeepsEnds(s: string, c: char, rep: string)
    requires s != [] && s[0] != c && s[|s| - 1] != c
    ensures Replace(s, c, rep) != []
    ensures Replace(s, c, rep)[0] == s[0]
    ensures Replace(s, c, rep)[|Replace(s, c, rep)| - 1] == s[|s| - 1]
  {
    if |s| > 1 {
      var p := s[..|s| - 1];
      if p[|p| - 1] != c {
        ReplaceKeepsEnds(p, c, rep);
      } else {
        ReplaceKeepsFirst(p, c, rep);
      }
    }
  }

  lemma {:induction false} ReplaceKeepsFirst(s: string, c: char, rep: string)
    requires s != [] && s[0] != c
    ensures Replace(s, c, rep) != [] && Replace(s, c, rep)[0] == s[0]
  {
    if |s| > 1 {
      ReplaceKeepsFirst(s[..|s| - 1], c, rep);
    }
  }

  /** Replacing a character that does not occur changes nothing. */
  lemma {:induction false} ReplaceAbsent(s: string, c: char, rep: string)
    requires c !in s
    ensures Replace(s, c, rep) == s
  {
    if s != [] {
      ReplaceAbsent(s[..|s| - 1], c, rep);
    }
  }

  lemma NormalizedShape(desc: string)
    ensures var r := Normalized(desc);
      && '\n' !in r && '\r' !in r
      && (r == [] || (!IsSpace(r[0]) && !IsSpace(r[|r| - 1])))
      && Lower(r) == r
  {
    var st := Strip(desc);
    var lo := Lower(st);
    var a := Replace(lo, '\n', " ");
    var r := Replace(a, '\r', "");
    forall i | 0 <= i < |lo| ensures LowerChar(lo[i]) == lo[i] {
      LowerCharIdempotent(st[i]);
    }
    LoweredReplace(lo, '\n', " ");
    LoweredReplace(a, '\r', "");
    if st != [] {
      assert !IsSpace(lo[0]) && !IsSpace(lo[|lo| - 1]);
      ReplaceKeepsEnds(lo, '\n', " ");
      ReplaceKeepsEnds(a, '\r', "");
    }
    assert '\n' !in r by {
      assert '\n' !in a;
      ReplaceMembers(a, '\r', "");
    }
  }

  /** Normalising a normalised description changes nothing, unless it came out empty. */
  lemma NormalizeIdempotent(desc: Option<string>)
    requires NormalizeDescription(desc) != Some("")
    ensures NormalizeDescription(NormalizeDescription(desc)) == NormalizeDescription(desc)
  {
    if NormalizeDescription(desc).Some? {
      var r := NormalizeDescription(desc).value;
      ReplaceAbsent(r, '\n', " ");
      ReplaceAbsent(r, '\r', "");
    }
  }

  /** ... and an all-whitespace description comes out as the empty string, which is not `None`. */
  lemma NormalizeBlank()
    ensures NormalizeDescription(Some("  ")) == Some("")
    ensures NormalizeDescription(NormalizeDescription(Some("  "))) == None
  {
    assert Strip("  ") == [] by {
      assert forall i :: 0 <= i < |"  "| ==> IsSpace("  "[i]);
    }
    assert Lower([]) == [];
    assert Replace([], '\n', " ") == [] && Replace([], '\r', "") == [];
    assert Normalized("  ") == [];
  }

  // ------------------------------------------------------------ parse_datetime_from_str

  /** Every `/`, `.`, `-` and `_` of the time field becomes `:`. */
  function NormalizeTimeSeparators(t: string): string {
    Replace(Replace(Replace(Replace(t, '/', ":"), '.', ":"), '-', ":"), '_', ":")
  }

  predicate IsTimeSeparator(c: char) {
    c == ':' || c == '/' || c == '.' || c == '-' || c == '_'
  }

  /**
   * `EventParser.parse_datetime_from_str`: split on whitespace into exactly a
   * date field and a time field, unify the time separators, then
   * `strptime(..., "%m/%d/%Y %H:%M")`; `None` wherever Python logs a `ValueError`.
   */
  function ParseDateTimeFromStr(dateStr: string): (r: Option<DateTime>)
    ensures r.Some? ==> |Fields(dateStr)| == 2 && ValidDateTime(r.value)
  {
    var parts := Fields(dateStr);
    if |parts| != 2 then None
    else Parse(parts[0] + " " + NormalizeTimeSeparators(parts[1]))
  }

  lemma {:induction false} ReplaceConcat(a: string, b: string, c: char, rep: string)
    ensures Replace(a + b, c, rep) == Replace(a, c, rep) + Replace(b, c, rep)
    decreases |b|
  {
    if b != [] {
      var b' := b[..|b| - 1];
      assert (a + b)[..|a + b| - 1] == a + b';
      ReplaceConcat(a, b', c, rep);
    } else {
      assert a + b == a;
    }
  }

  lemma NormalizeSeparatorsConcat(a: string, b: string)
    ensures NormalizeTimeSeparators(a + b) == NormalizeTimeSeparators(a) + NormalizeTimeSeparators(b)
  {
    ReplaceConcat(a, b, '/', ":");
    var a1, b1 := Replace(a, '/', ":"), Replace(b, '/', ":");
    ReplaceConcat(a1, b1, '.', ":");
    var a2, b2 := Replace(a1, '.', ":"), Replace(b1, '.', ":");
    ReplaceConcat(a2, b2, '-', ":");
    var a3, b3 := Replace(a2, '-', ":"), Replace(b2, '-', ":");
    ReplaceConcat(a3, b3, '_', ":");
  }

  lemma NormalizeSeparatorChar(c: char)
    requires IsTimeSeparator(c)
    ensures NormalizeTimeSeparators([c]) == ":"
  {
    ReplaceSingle(c, '/', ":");
    var a := if c == '/' then ':' else c;
    assert Replace([c], '/', ":") == [a];
    ReplaceSingle(a, '.', ":");
    var b := if a == '.' then ':' else a;
    assert Replace([a], '.', ":") == [b];
    ReplaceSingle(b, '-', ":");
    var d := if b == '-' then ':' else b;
    assert Replace([b], '-', ":") == [d];
    ReplaceSingle(d, '_', ":");
  }

  lemma ReplaceSingle(c: char, x: char, rep: string)
    ensures Replace([c], x, rep) == if c == x then rep else [c]
  {
    assert [c][..0] == [];
  }

  lemma NormalizeDigits(s: string)
    requires AllDigits(s)
    ensures NormalizeTimeSeparators(s) == s
  {
    ReplaceAbsent(s, '/', ":");
    ReplaceAbsent(s, '.', ":");
    ReplaceAbsent(s, '-', ":");
    ReplaceAbsent(s, '_', ":");
  }

  /**
   * The separator between hours and minutes does not matter:
   * "06/28/2025 19.30", "...19-30", "...19_30", "...19/30" and "...19:30" parse alike.
   */
  lemma SeparatorsAgree(date: string, hh: string, mm: string, c1: char, c2: char)
    requires date != [] && NoSpace(date) && NoSpace(hh) && NoSpace(mm)
    requires IsTimeSeparator(c1) && IsTimeSeparator(c2)
    ensures ParseDateTimeFromStr(date + " " + (hh + [c1] + mm)) == ParseDateTimeFromStr(date + " " + (hh + [c2] + mm))
  {
    var t1, t2 := hh + [c1] + mm, hh + [c2] + mm;
    assert NoSpace(t1) && NoSpace(t2);
    FieldsOfTwoWords(date, t1);
    FieldsOfTwoWords(date, t2);
    NormalizeSeparatorsConcat(hh + [c1], mm);
    NormalizeSeparatorsConcat(hh, [c1]);
    NormalizeSeparatorsConcat(hh + [c2], mm);
    NormalizeSeparatorsConcat(hh, [c2]);
    NormalizeSeparatorChar(c1);
    NormalizeSeparatorChar(c2);
  }

  /** Every valid datetime written as the site writes it, with any of the five separators, parses back to itself. */
  lemma ParseFormatted(dt: DateTime, sep: char)
    requires ValidDateTime(dt) && IsTimeSeparator(sep)
    ensures ParseDateTimeFromStr(Format(dt, sep)) == Some(dt)
  {
    var date, t := FormatDate(dt), FormatClock(dt, sep);
    ClockNoSpace(dt, sep);
    FieldsOfTwoWords(date, t);
    ClockSeparatorNormalized(dt, sep);
    ParseFormat(dt);
  }

  lemma ClockNoSpace(dt: DateTime, sep: char)
    requires ValidDateTime(dt) && IsTimeSeparator(sep)
    ensures FormatClock(dt, sep) != [] && NoSpace(FormatClock(dt, sep))
  {
    DigitsNoSpace(Padded(dt.hour, 2));
    DigitsNoSpace(Padded(dt.minute, 2));
  }

  lemma ClockSeparatorNormalized(dt: DateTime, sep: char)
    requires ValidDateTime(dt) && IsTimeSeparator(sep)
    ensures NormalizeTimeSeparators(FormatClock(dt, sep)) == FormatClock(dt, ':')
  {
    var hh, mm := Padded(dt.hour, 2), Padded(dt.minute, 2);
    NormalizeSeparatorsConcat(hh + [sep], mm);
    NormalizeSeparatorsConcat(hh, [sep]);
    NormalizeSeparatorChar(sep);
    NormalizeDigits(hh);
    NormalizeDigits(mm);
  }

  // ------------------------------------------------------------ get_parent_name_from_url

  predicate IsSlash(c: char) {
    c == '/'
  }

  /** The first path segment: `path.strip("/").split("/")[0]`. */
  function FirstSegment(path: string): string {
    SplitOn(StripBy(path, IsSlash), '/')[0]
  }

  /**
   * `EventParser.get_parent_name_from_url`, given the path of the base URL:
   * the category named by the first path segment, lower-cased.
   */
  function ParentNameFromPath(path: string): (r: string)
    ensures r in {"Movies", "Festivals", "Unknown"}
    ensures r == "Movies" <==> Lower(FirstSegment(path)) == "kino"
    ensures r == "Festivals" <==> Lower(FirstSegment(path)) == "festivali"
  {
    var parts := SplitOn(StripBy(path, IsSlash), '/');
    if |parts| > 0 then
      var key := Lower(parts[0]);
      if key == "kino" then "Movies" else if key == "festivali" then "Festivals" else "Unknown"
    else "Unknown"
  }

  /** An empty path, or the root path of the default base URL, names no category. */
  lemma RootPathIsUnknown()
    ensures ParentNameFromPath("") == "Unknown"
    ensures ParentNameFromPath("/") == "Unknown"
  {
    assert StripBy("/", IsSlash) == [];
  }

  // ------------------------------------------------------------ showtimes of a detail page

  /** A (timestamp, location) showtime. The location is `None` when cleanup leaves nothing. */
  datatype Slot = Slot(date: int, location: Option<string>)

  /**
   * One `a.schedule__seance-time` anchor with what the page offers around it:
   * its `data-date-format` and `data-category` attributes and the raw texts of
   * the place link and the address of its schedule item (`None` where absent).
   */
  datatype TimeTag = TimeTag(
    dateFormat: Option<string>,
    place: Option<string>,
    address: Option<string>,
    category: Option<string>)

  /** "place, address", or just the place, from the schedule item; `None` without a place link. */
  function ScheduleLocation(tag: TimeTag): (r: Option<string>)
    ensures r.None? <==> tag.place.None?
  {
    if tag.place.None? then None
    else
      var placeName := Strip(tag.place.value);
      var address := if tag.address.Some? then Some(Strip(tag.address.value)) else None;
      if Truthy(address) then Some(placeName + ", " + address.value) else Some(placeName)
  }

  /** `(location or data-category or "Unknown location").strip()`, then `clean_text`. */
  function SlotLocation(tag: TimeTag): (r: Option<string>)
    ensures r.Some? ==> r.value != ""
    ensures Truthy(ScheduleLocation(tag)) ==> r == CleanText(Strip(ScheduleLocation(tag).value), false)
    ensures !Truthy(ScheduleLocation(tag)) && Truthy(tag.category) ==> r == CleanText(Strip(tag.category.value), false)
    ensures !Truthy(ScheduleLocation(tag)) && !Truthy(tag.category) ==> r == Some("Unknown location")
  {
    var raw := OrElse(OrElse(ScheduleLocation(tag), tag.category), Some("Unknown location")).value;
    UnknownLocationIsClean();
    CleanText(Strip(raw), false)
  }

  lemma UnknownLocationIsClean()
    ensures Strip("Unknown location") == "Unknown location"
    ensures CleanText("Unknown location", false) == Some("Unknown location")
  {
    var s := "Unknown location";
    assert s[0] == 'U' && s[|s| - 1] == 'n';
    assert Lrm !in s;
    PlainTextIsClean(s);
  }

  /** A text with no U+200E, no surrounding whitespace and no trailing digit comes through `clean_text` unchanged. */
  lemma PlainTextIsClean(s: string)
    requires s != [] && Lrm !in s
    requires !IsSpace(s[0]) && !IsSpace(s[|s| - 1]) && !IsDigit(s[|s| - 1]) && s[|s| - 1] != '\n'
    ensures Strip(s) == s
    ensures CleanText(s, false) == Some(s)
  {
    PlainTextIsCleaned(s);
    StripOfStripped(s);
  }

  lemma PlainTextIsCleaned(s: string)
    requires s != [] && Lrm !in s
    requires !IsSpace(s[0]) && !IsSpace(s[|s| - 1]) && !IsDigit(s[|s| - 1]) && s[|s| - 1] != '\n'
    ensures Cleaned(s) == s
  {
    ReplaceAbsent(s, Lrm, "");
    NoNumberSuffix(s);
    StripOfStripped(s);
  }

  /** A text that does not end in a digit or a newline has no number suffix to cut. */
  lemma NoNumberSuffix(s: string)
    requires s != [] && !IsDigit(s[|s| - 1]) && s[|s| - 1] != '\n'
    ensures CutNumberSuffix(s) == s
  {
    assert TrailingCount(s, IsDigit) == 0;
  }

  /** The timestamp of a showtime anchor, when its date attribute is present and parses. */
  function SlotDate(tag: TimeTag): Option<DateTime> {
    if Truthy(tag.dateFormat) then ParseDateTimeFromStr(tag.dateFormat.value) else None
  }

  /** The showtimes of a page: one per anchor whose date parses, in page order. */
  function Showtimes(tags: seq<TimeTag>): (r: seq<Slot>)
    ensures |r| <= |tags|
    ensures forall k :: 0 <= k < |r| ==> r[k].location != Some("")
  {
    if tags == [] then []
    else
      var last := tags[|tags| - 1];
      var d := SlotDate(last);
      Showtimes(tags[..|tags| - 1]) + (if d.Some? then [Slot(ToSeconds(d.value), SlotLocation(last))] else [])
  }

  /** An anchor contributes a showtime exactly when its date parses; unparsable ones are dropped silently. */
  lemma {:induction false} ShowtimesCount(tags: seq<TimeTag>)
    ensures |Showtimes(tags)| == |ParsedTags(tags)|
    ensures forall k :: 0 <= k < |Showtimes(tags)| ==>
      var t := ParsedTags(tags)[k];
      SlotDate(t).Some? && Showtimes(tags)[k] == Slot(ToSeconds(SlotDate(t).value), SlotLocation(t))
  {
    if tags != [] {
      ShowtimesCount(tags[..|tags| - 1]);
    }
  }

  /** The anchors whose date parses, in page order. */
  function ParsedTags(tags: seq<TimeTag>): (r: seq<TimeTag>)
    ensures forall k :: 0 <= k < |r| ==> r[k] in tags && SlotDate(r[k]).Some?
    ensures forall t :: t in tags && SlotDate(t).Some? ==> t in r
  {
    if tags == [] then []
    else
      var init, last := tags[..|tags| - 1], tags[|tags| - 1];
      assert forall t :: t in tags ==> t in init || t == last;
      ParsedTags(init) + (if SlotDate(last).Some? then [last] else [])
  }

  lemma ShowtimesOfPrefix(tags: seq<TimeTag>, i: nat)
    requires i < |tags|
    ensures var d := SlotDate(tags[i]);
      Showtimes(tags[..i + 1])
      == Showtimes(tags[..i]) + (if d.Some? then [Slot(ToSeconds(d.value), SlotLocation(tags[i]))] else [])
  {
    assert tags[..i + 1][..i] == tags[..i];
  }

  /** The showtime loop of `fetch_event_details`. */
  method ExtractShowtimes(tags: seq<TimeTag>) returns (dateLocations: seq<Slot>)
    ensures dateLocations == Showtimes(tags)
  {
    dateLocations := [];
    var i := 0;
    while i < |tags|
      invariant 0 <= i <= |tags|
      invariant dateLocations == Showtimes(tags[..i])
    {
      var tag := tags[i];
      var dt := SlotDate(tag);
      ShowtimesOfPrefix(tags, i);
      if dt.Some? {
        var location := SlotLocation(tag);
        dateLocations := dateLocations + [Slot(ToSeconds(dt.value), location)];
      }
      i := i + 1;
    }
    assert tags[..i] == tags;
  }

  // ------------------------------------------------------------ a detail page

  /** What `fetch_event_details` reads off one detail page. */
  datatype DetailPage = DetailPage(
    descriptionText: Option<string>,  // text of the description block, if there is one
    tagTexts: seq<string>,            // texts of the tag links
    timeTags: seq<TimeTag>)

  datatype Details = Details(description: Option<string>, interests: seq<string>, dateLocations: seq<Slot>)

  /** The interest tags: stripped, non-empty, cleaned with the phone-number rule, `None`s dropped. */
  function CleanTags(texts: seq<string>): (r: seq<string>)
    ensures |r| <= |texts|
    ensures forall k :: 0 <= k < |r| ==> r[k] != "" && !LooksLikePhone(r[k]) && Lrm !in r[k]
  {
    var r := FilterMap(texts, CleanTag);
    forall k | 0 <= k < |r|
      ensures r[k] != "" && !LooksLikePhone(r[k]) && Lrm !in r[k]
    {
      FilterMapMember(texts, CleanTag, r[k]);
    }
    r
  }

  /** A text is among the interest tags exactly when some tag link cleans to it. */
  lemma CleanTagsMembers(texts: seq<string>)
    ensures forall x :: x in CleanTags(texts) <==> exists k :: 0 <= k < |texts| && CleanTag(texts[k]) == Some(x)
  {
    forall x
      ensures x in CleanTags(texts) <==> exists k :: 0 <= k < |texts| && CleanTag(texts[k]) == Some(x)
    {
      FilterMapMember(texts, CleanTag, x);
    }
  }

  /** One tag text: stripped, and cleaned with the phone-number rule when not empty. */
  function CleanTag(text: string): (c: Option<string>)
    ensures c.Some? <==> Strip(text) != "" && Kept(Cleaned(Strip(text)), true)
    ensures c.Some? ==> c.value == Cleaned(Strip(text))
    ensures c.Some? ==> c.value != "" && !LooksLikePhone(c.value) && Lrm !in c.value
  {
    var t := Strip(text);
    if t != "" then CleanText(t, true) else None
  }

  function DetailsOf(page: DetailPage): Details {
    var description := if page.descriptionText.Some? then Some(Strip(page.descriptionText.value)) else None;
    Details(NormalizeDescription(description), CleanTags(page.tagTexts), Showtimes(page.timeTags))
  }

  /** `fetch_event_details`, once the page is in hand. */
  method FetchEventDetails(page: DetailPage) returns (details: Details)
    ensures details == DetailsOf(page)
  {
    var description := if page.descriptionText.Some? then Some(Strip(page.descriptionText.value)) else None;
    var normalizedDescription := NormalizeDescription(description);
    var interests := CleanTags(page.tagTexts);
    var dateLocations := ExtractShowtimes(page.timeTags);
    details := Details(normalizedDescription, interests, dateLocations);
  }
}
