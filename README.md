# Event catalog and recommendations, modelled in Dafny

This project models the core of an events service. It has four pieces:

- a scraper (`EventParser`) that reads a listing page of events and fetches each event's detail page, resubmitting failed fetches;
- a catalog repository (`EventCRUD`) that reconciles the scraped events into an event table and an interest table, and sweeps stale events;
- a recommendation filter (`FilterAlgorithm`) that picks, scores and ranks events for a user;
- a feedback repository (`FeedbackCRUD`) that toggles a user's like or dislike of an event.

Each of them is modelled with proofs of what it promises.

Modules, one per file:

| file | module | what it holds |
|---|---|---|
| `wrappers.dfy` | `Wrappers` | `Option` and `Result` |
| `sql.dfy` | `Sql` | `one_or_none`, filtered selects, the two database errors |
| `pystr.dfy` | `PyStr` | the Python `str` operations the scraper uses |
| `strptime.dfy` | `Strptime` | `datetime.strptime` with the fixed pattern `%m/%d/%Y %H:%M`, and timestamps as whole seconds |
| `events_service.dfy` | `EventsService` | the text helpers of `EventParser` and the page handling of `fetch_event_details` |
| `event_scraper.dfy` | `EventScraper` | the stub loop, the fetch rounds of `parse_events_from_html`, and `retry_request` |
| `event_repository.dfy` | `EventRepository` | the catalog, the reconciler, the sweep, and the `EventCrud` class |
| `feedback.dfy` | `FeedbackRepository` | the feedback table, the toggle, and the `FeedbackCrud` class |
| `filter.dfy` | `FilterAlgorithm` | interest expansion, the feedback partition, candidates, scores and ranking |

How the source is represented:

- **Database rows.** Tables become sequences. A row's id is its position in its table. Queries become filters in table order (`Sql.Matching`).
- **Statefulness.** The repositories are classes whose fields are the tables. Each method is specified by a pure function of the old state, and the lemmas are proved about that function.
- **Transactions.** A transaction that raises leaves the state as it was.
- **Parameters.** Network fetches, the MD5 digest and `datetime.now()` become parameters:
  - a fetch oracle `fetch(stub, round)`;
  - a hash function `hash: string -> string`;
  - an integer `now`.

## Model

| member | source | states |
|---|---|---|
| Wrappers.Truthy | domain/services/afisha/events_service.py:50 | Python truthiness of an optional string, as in `if not text` and `if not desc` (also line 62): present and not `""` |
| Sql.OneOrNone | infra/repositories/event_repository.py:130 | `one_or_none`: `None` exactly for no row; the row exactly for one row; `MultipleResultsFound` exactly for two or more |
| Sql.Matching | infra/repositories/event_repository.py:122-130 | a select with a where clause: ids in range that satisfy the predicate, strictly increasing (table order), and every satisfying row is among them |
| Sql.MatchingSingle | infra/repositories/event_repository.py:122-130 | a predicate only row `i` satisfies selects exactly `[i]` |
| Sql.MatchingEmpty | infra/repositories/event_repository.py:122-130 | a predicate no row satisfies selects nothing |
| PyStr.IsSpace | domain/services/afisha/events_service.py:53-54 | the characters `str.isspace`, `strip()` and the regex class `\s` treat as whitespace |
| PyStr.IsDigit | domain/services/afisha/events_service.py:53-55 | `str.isdigit` and the regex class `\d`, on ASCII digits |
| PyStr.CountDigits | domain/services/afisha/events_service.py:55 | `sum(c.isdigit() for c in text)`: at most the length, equal to it exactly when all characters are digits |
| PyStr.CountDigitsConcat | domain/services/afisha/events_service.py:55 | the digit count of `a + b` is the count of `a` plus the count of `b` |
| PyStr.CountDigitsOne | domain/services/afisha/events_service.py:55 | one character counts 1 exactly when it is a digit, else 0; with `CountDigitsConcat` this fixes the count as the number of digit positions |
| PyStr.LeadingCount | domain/services/afisha/events_service.py:53 | the length of the leading run satisfying a predicate: all inside satisfy it, the next one does not |
| PyStr.TrailingCount | domain/services/afisha/events_service.py:53 | the same for the trailing run |
| PyStr.StripBy | domain/services/afisha/events_service.py:37 | `strip(chars)`: the result is the slice of the input that starts right after the leading run of stripped characters; everything after it is stripped too; it starts and ends with no stripped character; it is empty exactly when every character is stripped |
| PyStr.Strip | domain/services/afisha/events_service.py:64 | `strip()`: the slice of the text that starts after its leading whitespace and is followed only by whitespace; never longer, and starts and ends with no whitespace |
| PyStr.StripOfStripped | domain/services/afisha/events_service.py:64 | a text without surrounding whitespace is its own `strip()` |
| PyStr.LowerChar | domain/services/afisha/events_service.py:64 | `lower()` on a character keeps whitespace and digits what they are |
| PyStr.Lower | domain/services/afisha/events_service.py:64 | `lower()` maps character by character and keeps the length |
| PyStr.Replace | domain/services/afisha/events_service.py:64 | `replace(c, rep)`: keeps the length for a one-character `rep`, and leaves no `c` when `rep` has none |
| PyStr.ReplaceMembers | domain/services/afisha/events_service.py:71 | every character of the result comes from the text or from `rep` |
| PyStr.Fields | domain/services/afisha/events_service.py:69 | `split()`: each field is non-empty and has no whitespace; there is no field exactly when the text is all whitespace (or empty) |
| PyStr.FieldsOfWord | domain/services/afisha/events_service.py:69 | a non-empty text without whitespace splits into itself alone |
| PyStr.FieldsOfSpaces | domain/services/afisha/events_service.py:69 | leading whitespace adds no field: `(w + b).split() == b.split()` for an all-whitespace `w` |
| PyStr.FieldsConcat | domain/services/afisha/events_service.py:69 | `(a + w + b).split() == a.split() + b.split()` for any non-empty all-whitespace `w` |
| PyStr.FieldsHead | domain/services/afisha/events_service.py:69 | the first field of a text that is not all whitespace stays its first field when whitespace-led text is appended |
| PyStr.FieldsOfTwoWords | domain/services/afisha/events_service.py:69 | two words joined by a space split back into exactly those two words |
| PyStr.LeadingCountOfConcat | domain/services/afisha/events_service.py:69 | the leading run of `a + rest` is `a` when `rest` does not continue it |
| PyStr.SplitOn | domain/services/afisha/events_service.py:37 | `split(sep)`: never empty, even for `""`; no part contains `sep`; the first part is the text up to the first `sep` |
| PyStr.IndexOrLength | domain/services/afisha/events_service.py:37 | the first index of `sep`, or the length when `sep` is absent |
| Strptime.DaysInMonth | domain/services/afisha/events_service.py:73 | a month has between 28 and 31 days |
| Strptime.Parse | domain/services/afisha/events_service.py:73 | `strptime(s, "%m/%d/%Y %H:%M")` yields only datetimes the `datetime` constructor accepts |
| Strptime.ParseFormat | domain/services/afisha/events_service.py:73 | every valid datetime written in the pattern parses back to itself |
| Strptime.Ordinal | domain/services/afisha/events_service.py:73 | `date.toordinal()` of a valid datetime: the days of the earlier years (with the Gregorian leap rule), of the earlier months of its year, and its day; 0001-01-01 is day 1 |
| Strptime.ToSeconds | domain/services/afisha/events_service.py:73 | a naive `datetime` as whole seconds since 0001-01-01 00:00: the day ordinal, hour and minute combined. Comparisons of datetimes in the source become comparisons of these numbers (see `Strptime.SecondsIncreasing`) |
| Strptime.SecondsIncreasing | domain/services/afisha/events_service.py:73 | a chronologically later datetime has a larger timestamp, so comparing timestamps compares datetimes |
| Strptime.SecondsInjective | domain/services/afisha/events_service.py:73 | distinct valid datetimes have distinct timestamps |
| Strptime.YearLength | domain/services/afisha/events_service.py:73 | a year has 366 days when it is a leap year and 365 otherwise |
| Strptime.OrdinalBefore | domain/services/afisha/events_service.py:73 | an earlier date has a smaller day ordinal |
| Strptime.PaddedValue | domain/services/afisha/events_service.py:73 | a zero-padded number reads back as itself |
| Strptime.ReadNumber | domain/services/afisha/events_service.py:73 | one numeric directive of `strptime`: a leading run of between `lo` and `hi` ASCII digits, read as a number, and the rest of the text; no value when the run is shorter or longer |
| Strptime.ReadPadded | domain/services/afisha/events_service.py:73 | a numeric directive reads a zero-padded field back and leaves the rest |
| Strptime.FormatDate | domain/services/afisha/events_service.py:73 | the date field is non-empty and has no whitespace |
| Strptime.ReadDate | domain/services/afisha/events_service.py:73 | the `%m/%d/%Y` part of the pattern: one- or two-digit month, `/`, one- or two-digit day, `/`, four-digit year, and the rest of the text; no value when any piece is missing |
| Strptime.ReadClock | domain/services/afisha/events_service.py:73 | the `%H:%M` part of the pattern: one- or two-digit hour, `:`, one- or two-digit minute, and the rest of the text |
| Strptime.ReadFormattedDate | domain/services/afisha/events_service.py:73 | `%m/%d/%Y` reads a written date back |
| Strptime.ReadFormattedClock | domain/services/afisha/events_service.py:73 | `%H:%M` reads a written time back, with nothing left over |
| EventsService.SuffixMatch | domain/services/afisha/events_service.py:53 | where the regex `[\s-]*\d{4,}$` matches: gap characters (whitespace or `-`) from position `i` up to `k`, then at least four digits from `k` to the end of the text |
| EventsService.CutAtEnd | domain/services/afisha/events_service.py:53 | cutting the number suffix leaves a prefix of the text |
| EventsService.CutAtEndIsLeftmostMatch | domain/services/afisha/events_service.py:53 | the regex `[\s-]*\d{4,}$`: the text is unchanged exactly when the pattern matches nowhere; otherwise the cut is at a match, and no match starts before the cut |
| EventsService.MatchIsNotBeforeCut | domain/services/afisha/events_service.py:53 | any match means at least four trailing digits, and the cut is at or before the match |
| EventsService.CutNumberSuffix | domain/services/afisha/events_service.py:53 | `re.sub` with `$`, which also matches before a final newline: never longer |
| EventsService.CutBeforeNewline | domain/services/afisha/events_service.py:53 | before a final newline, `$` matches ahead of it: the text before the newline is cut as `CutAtEnd` cuts it and the newline stays; nothing changes exactly when that text has no match |
| EventsService.LooksLikePhone | domain/services/afisha/events_service.py:55-56 | the phone test of `clean_text`: more than five digits, and `re.fullmatch(r"[\d\s+\-()]*")` holds, so every character is a digit, whitespace, `+`, `-`, `(` or `)` |
| EventsService.Cleaned | domain/services/afisha/events_service.py:52-53 | after removing U+200E, cutting the suffix and `strip()`: no U+200E, and no whitespace at either end |
| EventsService.Kept | domain/services/afisha/events_service.py:54-58 | what the last lines of `clean_text` accept: a non-empty cleaned text (`text or None`), and with `filter_digits` one that is not phone-like |
| EventsService.CleanText | domain/services/afisha/events_service.py:48-58 | `clean_text`: a value exactly for a non-empty input whose cleaned text is non-empty and, with `filter_digits`, not phone-like. The value is the cleaned text, never `""`, has no U+200E, and with the flag is not phone-like |
| EventsService.CleanTextIsStripped | domain/services/afisha/events_service.py:53 | what `clean_text` returns is already stripped |
| EventsService.FilterDigitsOnlyDropsPhones | domain/services/afisha/events_service.py:54-57 | the flag changes the result only by dropping a phone-like text (more than 5 digits, only digits, whitespace, `+`, `-`, `(`, `)`) |
| EventsService.Normalized | domain/services/afisha/events_service.py:64 | the chain `desc.strip().lower().replace("\n", " ").replace("\r", "")` on a present, non-empty description (its shape is `EventsService.NormalizedShape`) |
| EventsService.NormalizeDescription | domain/services/afisha/events_service.py:60-64 | `normalize_description`: a value exactly when `desc` is a non-empty string, and then it is `desc.strip().lower()` with `\n` turned into a space and `\r` dropped (`Normalized`); that value has no `\n` or `\r`, is stripped and is lower-cased |
| EventsService.NormalizedShape | domain/services/afisha/events_service.py:64 | the chain `strip().lower().replace('\n',' ').replace('\r','')` leaves no newline or carriage return, no surrounding whitespace, and a lower-cased text |
| EventsService.NormalizeIdempotent | domain/services/afisha/events_service.py:60-64 | normalising twice equals normalising once, unless the first result is `""` |
| EventsService.NormalizeBlank | domain/services/afisha/events_service.py:60-64 | an all-space description gives `""`, and normalising that gives `None` |
| EventsService.LowerCharIdempotent | domain/services/afisha/events_service.py:64 | lower-casing a character twice equals once |
| EventsService.LoweredReplace | domain/services/afisha/events_service.py:64 | replacing with lower-case text keeps a text lower-cased |
| EventsService.ReplaceKeepsEnds | domain/services/afisha/events_service.py:64 | replacing a character that is neither first nor last keeps both end characters |
| EventsService.ReplaceAbsent | domain/services/afisha/events_service.py:64 | replacing an absent character changes nothing |
| EventsService.NormalizeTimeSeparators | domain/services/afisha/events_service.py:70-71 | the separator loop on the time field: every `/`, then `.`, `-` and `_` replaced by `:` in that order |
| EventsService.ParseDateTimeFromStr | domain/services/afisha/events_service.py:66-76 | `parse_datetime_from_str`: a value only when the input has exactly two whitespace-separated fields, and then a valid datetime |
| EventsService.SeparatorsAgree | domain/services/afisha/events_service.py:70-71 | the time separator (`:`, `/`, `.`, `-` or `_`) does not change the parse |
| EventsService.ParseFormatted | domain/services/afisha/events_service.py:66-76 | every valid datetime written with any of the five separators parses back to itself |
| EventsService.ReplaceConcat | domain/services/afisha/events_service.py:71 | `replace` distributes over concatenation |
| EventsService.NormalizeSeparatorChar | domain/services/afisha/events_service.py:70-71 | each of the four separators becomes `:` |
| EventsService.ClockSeparatorNormalized | domain/services/afisha/events_service.py:70-71 | a time written with any separator normalises to the `:` form |
| EventsService.FirstSegment | domain/services/afisha/events_service.py:37 | `path.strip("/").split("/")[0]`: the path without leading and trailing slashes, up to its first `/` |
| EventsService.ParentNameFromPath | domain/services/afisha/events_service.py:35-46 | `get_parent_name_from_url`: one of Movies, Festivals and Unknown; Movies exactly when the lower-cased first segment is `kino`; Festivals exactly when it is `festivali` |
| EventsService.RootPathIsUnknown | domain/services/afisha/events_service.py:35-46 | an empty path and the root path (the default base URL) give Unknown |
| EventsService.ScheduleLocation | domain/services/afisha/events_service.py:107-114 | "place, address", or the place alone; no location exactly without a place link |
| EventsService.SlotLocation | domain/services/afisha/events_service.py:116-118 | the location of a showtime: the cleaned schedule location when that is non-empty; otherwise the cleaned `data-category` when that is non-empty; otherwise "Unknown location"; never `""` |
| EventsService.UnknownLocationIsClean | domain/services/afisha/events_service.py:117-118 | "Unknown location" passes `clean_text` unchanged |
| EventsService.PlainTextIsClean | domain/services/afisha/events_service.py:48-58 | a text with no U+200E, no surrounding whitespace and no trailing digit or newline passes `clean_text` unchanged |
| EventsService.NoNumberSuffix | domain/services/afisha/events_service.py:53 | a text not ending in a digit or newline has no suffix to cut |
| EventsService.Showtimes | domain/services/afisha/events_service.py:93-119 | at most one showtime per anchor, and no location is `""` |
| EventsService.ShowtimesCount | domain/services/afisha/events_service.py:96-119 | one showtime per anchor whose date parses, in page order, with its timestamp and location; the other anchors are dropped silently |
| EventsService.ParsedTags | domain/services/afisha/events_service.py:97-98 | exactly the anchors whose date attribute is present and parses: every entry is such an anchor of the page, and every such anchor is an entry |
| EventsService.ShowtimesOfPrefix | domain/services/afisha/events_service.py:96-119 | one more anchor appends its showtime exactly when its date parses |
| EventsService.ExtractShowtimes | domain/services/afisha/events_service.py:93-119 | the showtime loop computes `Showtimes` of the anchors |
| EventsService.CleanTags | domain/services/afisha/events_service.py:88-91 | the interest tags: at most one per link; each is non-empty, not phone-like, and has no U+200E |
| EventsService.CleanTagsMembers | domain/services/afisha/events_service.py:88-91 | a text is an interest tag exactly when some tag link cleans to it (`CleanTag`) |
| Wrappers.FilterMapMember | domain/services/afisha/events_service.py:88-91 | `list(filter(None, map(f, xs)))` holds `y` exactly when `f(x) == Some(y)` for some element `x` |
| EventsService.CleanTag | domain/services/afisha/events_service.py:89-90 | one tag text: present exactly when its stripped text is non-empty and cleans to a non-empty, non-phone text, and then it is that cleaned text; when present it is non-empty, not phone-like and has no U+200E |
| EventsService.DetailsOf | domain/services/afisha/events_service.py:84-125 | the dictionary `fetch_event_details` returns for a fetched page: the stripped description text passed through `normalize_description`, the cleaned tags, and the showtimes of the anchors |
| EventsService.FetchEventDetails | domain/services/afisha/events_service.py:78-125 | `fetch_event_details` once the page is at hand: the normalised description, the cleaned tags and the showtimes |
| EventScraper.StubOf | domain/services/afisha/events_service.py:160-179 | an item gives a stub exactly when it has a title tag with a non-empty stripped title and an href; the stub's title is stripped and non-empty, and its link is non-empty |
| EventScraper.Stubs | domain/services/afisha/events_service.py:160-179 | at most one stub per item, each with a title and a link |
| EventScraper.StubsKeepOrder | domain/services/afisha/events_service.py:160-179 | stubs come in listing order, one per item that passes |
| EventScraper.CollectStubs | domain/services/afisha/events_service.py:160-179 | the stub loop computes `Stubs` |
| EventScraper.Merge | domain/services/afisha/events_service.py:146 | `event.update(details)` keeps title, link and image, and takes description, interests and showtimes from the details |
| EventScraper.Won | domain/services/afisha/events_service.py:139-147 | the events one round contributes: each pending stub whose fetch succeeded in that round, merged with its details, in listing order; never more than were pending |
| EventScraper.Sift | domain/services/afisha/events_service.py:139-147 | the successes or the failures of one round: never more than were pending |
| EventScraper.Lost | domain/services/afisha/events_service.py:140-144 | the stubs one round sends on: the pending stubs whose fetch in that round raised, in listing order |
| EventScraper.Winners | domain/services/afisha/events_service.py:145-147 | the pending stubs whose fetch in that round succeeded, in listing order |
| EventScraper.SiftMembers | domain/services/afisha/events_service.py:139-147 | a stub is among a round's successes (failures) exactly when it was pending and its fetch succeeded (failed) |
| EventScraper.SiftIncreasing | domain/services/afisha/events_service.py:139-147 | sifting keeps listing order |
| EventScraper.Tag | domain/services/afisha/events_service.py:143 | the requests of one round as `(stub, round)` pairs: one per pending stub, in order |
| EventScraper.GatherRound | domain/services/afisha/events_service.py:136-148 | one round: the successes merged in order; the failures queued for the next round only when one follows; one request per pending stub |
| EventScraper.RetrySpec | domain/services/afisha/events_service.py:130-151 | what `retry_request` returns from resubmission `attempt` on: the successes of this round, then what the later rounds make of its failures; nothing once no stub is pending or the attempts are used up |
| EventScraper.RetryRequests | domain/services/afisha/events_service.py:130-151 | the requests `retry_request` makes from resubmission `attempt` on: one per pending stub in this round, then those of the later rounds over its failures |
| EventScraper.RetryRequest | domain/services/afisha/events_service.py:130-151 | `retry_request`: returns `RetrySpec` of the stubs it is resubmitting, from round 1 to `max_retries`, and makes the requests `RetryRequests` lists |
| EventScraper.RoundAdvance | domain/services/afisha/events_service.py:135-150 | a resubmission returns its successes, then what later rounds make of its failures; there are no later rounds after the last one, and nothing is done once none is left |
| EventScraper.WithShowtimes | domain/services/afisha/events_service.py:198 | the final filter keeps exactly the events with showtimes |
| EventScraper.ParseEvents | domain/services/afisha/events_service.py:153-199 | what `parse_events_from_html` returns: the stubs of the listing; the successes of the first gather; then `retry_request` over its failures from resubmission 1 to 3; then only the events with showtimes |
| EventScraper.ParseEventsFromHtml | domain/services/afisha/events_service.py:153-199 | `parse_events_from_html` computes `ParseEvents`, with request log `AllRequests` |
| EventScraper.Pending | domain/services/afisha/events_service.py:185-190 | the stubs taking part in a round are stubs of the listing |
| EventScraper.PendingMembers | domain/services/afisha/events_service.py:135-150 | a stub takes part in round `r` exactly when all its earlier fetches failed |
| EventScraper.PendingInRounds | domain/services/afisha/events_service.py:135-150 | round 0 takes every listed stub, and rounds 1, 2 and 3 take exactly the stubs whose fetches failed in every earlier round |
| EventScraper.PendingStep | domain/services/afisha/events_service.py:143-144 | a stub takes part in the next round exactly when it took part in this one and failed |
| EventScraper.RequestsByRounds | domain/services/afisha/events_service.py:173-195 | the requests are those of round 0 and then of resubmissions 1, 2 and 3 |
| EventScraper.ParseEventsByRounds | domain/services/afisha/events_service.py:181-198 | the result lists the initial successes in listing order, then the successes of each resubmission round in listing order, and keeps only events with showtimes |
| EventScraper.FirstRound | domain/services/afisha/events_service.py:135-147 | the first successful round of a stub: all earlier rounds failed; no value means all four failed |
| EventScraper.WonAreFirsts | domain/services/afisha/events_service.py:146-147 | the successes of the four rounds, in round order, are the first successes of the stubs in the order they succeed |
| EventScraper.ParseEventsPerStub | domain/services/afisha/events_service.py:130-198 | per stub: a stub yields an event exactly when some round fetches it successfully, it yields one event, with the details of its first success, and a stub failing all four fetches is dropped |
| EventScraper.SuccessOrderDistinct | domain/services/afisha/events_service.py:146-147 | no stub is appended twice |
| EventScraper.LastRetryStillCounts | domain/services/afisha/events_service.py:130-151 | a stub that fails three times and succeeds on the third resubmission still yields its event |
| EventScraper.RoundsOfTag | domain/services/afisha/events_service.py:143 | a round requests each pending stub once |
| EventScraper.Attempts | domain/services/afisha/events_service.py:135-150 | the rounds in which a stub is requested: never more than 4 |
| EventScraper.RoundsOfAll | domain/services/afisha/events_service.py:181-195 | a stub's requests are its requests in the initial round and in each of the three resubmissions |
| EventScraper.AttemptsUntilSuccess | domain/services/afisha/events_service.py:135-150 | a stub is requested in round 0, and after each failure once more, stopping at its first success or after the third resubmission |
| EventScraper.RequestsPerStub | domain/services/afisha/events_service.py:130-195 | each listed stub's requests are exactly those attempts, so at most 4; a stub that is not listed is never requested |
| EventRepository.UniqueKeys | alembic/versions/0340cb4673d3_add_hash.py:27 | the unique constraint `uq_event_title_description_hash`: no two events share a `(title, description_hash)` pair |
| EventRepository.UniqueNames | domain/models/users.py:39 | `unique=True` on `interests.name`: no two interests share a name |
| EventRepository.Valid | infra/repositories/event_repository.py:63-120 | both unique constraints on the catalog together (`UniqueKeys` and `UniqueNames`), the invariant that a successful `_add_or_update_event` and a successful batch keep (`AddOrUpdateKeepsValid`, `AddBatchKeepsValid`) |
| EventRepository.KeyMatches | infra/repositories/event_repository.py:122-124 | the rows the select on `title` and `description_hash` finds, in table order |
| EventRepository.TitleMatches | infra/repositories/event_repository.py:132-133 | the rows the select on `title` alone finds, in table order |
| EventRepository.NameMatches | infra/repositories/event_repository.py:165 | the rows the select on `Interest.name` finds, in table order |
| EventRepository.KeyHolder | infra/repositories/event_repository.py:122-130 | under the unique `(title, description_hash)` constraint, the row holding a key is all its query finds |
| EventRepository.NameHolder | infra/repositories/event_repository.py:165-167 | under unique interest names, the row holding a name is all its query finds |
| EventRepository.Lookup | infra/repositories/event_repository.py:81-84 | a found event is a row with the sent title |
| EventRepository.LookupExactFirst | infra/repositories/event_repository.py:81 | the exact `(title, hash)` match wins over the title fallback |
| EventRepository.LookupNoFallbackForEmpty | infra/repositories/event_repository.py:83 | with no exact match, an empty description does not fall back to the title |
| EventRepository.LookupByTitle | infra/repositories/event_repository.py:83-84 | with no exact match and a non-empty description, the lookup is `one_or_none` of the title's rows: `MultipleResultsFound` for two or more, nothing for none |
| EventRepository.LookupSoleTitle | infra/repositories/event_repository.py:83-84 | the fallback finds the single row with that title |
| EventRepository.Fresh | infra/repositories/event_repository.py:139-143 | the incoming showtimes not stored before the call |
| EventRepository.MergeDates | infra/repositories/event_repository.py:138-153 | `_update_event_dates`: the fresh showtimes (those whose `(date, location)` was not stored before the call) appended; `is_active` set when any was added, otherwise left as it was |
| EventRepository.MergeDatesMeaning | infra/repositories/event_repository.py:138-153 | `_update_event_dates` keeps the stored showtimes in place, stores every incoming one and no other, and changes only showtimes and `is_active`. With nothing new, nothing changes; with something new, the event is active |
| EventRepository.MergeDatesIdempotent | infra/repositories/event_repository.py:138-153 | merging the same showtimes again changes nothing |
| EventRepository.MergeDatesKeepsRepeats | infra/repositories/event_repository.py:139-143 | a new showtime sent twice in one call is stored twice, since the pre-call set is never refreshed |
| EventRepository.Revised | infra/repositories/event_repository.py:89-91 | the description and its hash replaced when the stored description differs from the incoming one, and the row left as it is otherwise |
| EventRepository.GetOrCreateParent | infra/repositories/event_repository.py:163-172 | the category lookup only extends the interest table, and returns a row of it |
| EventRepository.ParentStable | infra/repositories/event_repository.py:163-172 | on a valid table it succeeds and returns the row with the category name, appending a parentless row only when the name is missing. The table stays valid, and a second call returns the same row and adds nothing |
| EventRepository.ParentFound | infra/repositories/event_repository.py:165-168 | a stored category is returned and nothing is added |
| EventRepository.ParentCreated | infra/repositories/event_repository.py:168-170 | a missing category is appended without a parent, and names stay unique |
| EventRepository.Existing | infra/repositories/event_repository.py:177-179 | the `existing` dictionary maps each of the names present under the parent to a row with that name under the parent |
| EventRepository.Resolve | infra/repositories/event_repository.py:181-187 | the loop gives one id per name |
| EventRepository.ResolveRows | infra/repositories/event_repository.py:184-186 | every created row is a tag under the parent, for a name that had none |
| EventRepository.ResolveIds | infra/repositories/event_repository.py:182-187 | each name gets the existing tag, or the row created for it |
| EventRepository.Duplicate | infra/repositories/event_repository.py:188 | the flush fails exactly when two rows share a name |
| EventRepository.GetOrCreateChildren | infra/repositories/event_repository.py:174-189 | `_get_or_create_child_interests`: no names give `[]` and no change; on success the table is only extended and its names stay unique |
| EventRepository.ChildrenResolved | infra/repositories/event_repository.py:174-189 | on success, every name in order gets a tag with that name under the parent, and a stored `(name, parent)` row is reused |
| EventRepository.ChildrenValue | infra/repositories/event_repository.py:174-189 | on success the table gains exactly the created rows, and the ids are those the name loop picks |
| EventRepository.ChildPicked | infra/repositories/event_repository.py:177-187 | the id picked for each name is a row with that name under the parent; a stored row with that name under the parent is the one picked |
| EventRepository.ExistingReused | infra/repositories/event_repository.py:179-183 | under unique names, a stored tag is what the dictionary gives for its name |
| EventRepository.ChildNameTakenElsewhere | infra/repositories/event_repository.py:177-188 | a tag name already held outside the parent cannot be created under it: the flush raises |
| EventRepository.RepeatedNewName | infra/repositories/event_repository.py:182-188 | a new tag name repeated among the names is created twice: the flush raises |
| EventRepository.ResolveNewInOrder | infra/repositories/event_repository.py:182-187 | names that had no tag get ids in the order they come |
| EventRepository.Attach | infra/repositories/event_repository.py:93-103 | the interest block only extends the table; with no tags it attaches nothing and changes nothing |
| EventRepository.AttachTags | infra/repositories/event_repository.py:93-103 | with tags, the category and a tag per name under it are attached, every attached id is a row, and the table stays valid |
| EventRepository.Description | infra/repositories/event_repository.py:76 | the description `_add_or_update_event` stores: the scraped one, or `""` when it is missing |
| EventRepository.AddOrUpdate | infra/repositories/event_repository.py:74-120 | `_add_or_update_event` on the catalog. It looks the event up by `(title, hash)`, then by title alone for a non-empty description; with tags it resolves the category and the tags. A match gets new showtimes, a revised description and hash, and the interests; otherwise a new row is appended. Any lookup or flush error is the result (its meaning is proved in `AddOrUpdateMerges`, `AddOrUpdateCreates` and `AddOrUpdateKeepsValid`) |
| EventRepository.AddBatch | infra/repositories/event_repository.py:63-68 | `add_events_from_parser` after the parse: `_add_or_update_event` on each event in order, each starting from the catalog the previous one left; the first error is the batch's outcome |
| EventRepository.LookupFindsKey | infra/repositories/event_repository.py:81 | when a row holds the incoming key, the lookup lands on such a row |
| EventRepository.ReplaceKeepsKeys | infra/repositories/event_repository.py:89-91 | replacing a row by one with its own key, or with a key no row holds, keeps keys unique |
| EventRepository.AppendKeepsKeys | infra/repositories/event_repository.py:119 | appending a row with an unheld key keeps keys unique |
| EventRepository.AddOrUpdateKeepsValid | infra/repositories/event_repository.py:74-120 | a successful `_add_or_update_event` keeps both unique constraints |
| EventRepository.AddBatchKeepsValid | infra/repositories/event_repository.py:63-68 | a successful batch keeps both unique constraints |
| EventRepository.AddOrUpdateMerges | infra/repositories/event_repository.py:86-104 | a match at row `i` merges its showtimes, replaces description and hash only when the description differs, and only grows its interests (none added without tags). Title and feedback are kept, and every other row is unchanged |
| EventRepository.AddOrUpdateCreates | infra/repositories/event_repository.py:106-120 | with no match, the event is appended with title, description, `hash(description)`, all showtimes as sent, the attached interests, active, and no feedback |
| EventRepository.AmbiguousTitle | infra/repositories/event_repository.py:83-84 | a title-only fallback hitting several rows raises `MultipleResultsFound` |
| EventRepository.BatchAborts | infra/repositories/event_repository.py:66-68 | an error at any event is the batch's outcome |
| EventRepository.CreateUntagged | infra/repositories/event_repository.py:106-120 | an untagged new event is appended as sent; the interests are unchanged |
| EventRepository.MergeUntagged | infra/repositories/event_repository.py:86-104 | an untagged match revises that row only; the interests are unchanged |
| EventRepository.RematchUntagged | infra/repositories/event_repository.py:86-104 | an exact untagged re-send with nothing new leaves the catalog as it was |
| EventRepository.ReviseUntagged | infra/repositories/event_repository.py:89-91 | a title match with a different description and nothing new replaces only description and hash |
| EventRepository.BatchOfTwo | infra/repositories/event_repository.py:66-68 | a batch applies its events in order |
| EventRepository.BatchNotIdempotent | infra/repositories/event_repository.py:74-120 | a title sent without and then with a description gives one row after the first run and two after a second run of the same batch |
| EventRepository.FirstRun | infra/repositories/event_repository.py:74-120 | the first run of that batch: the bare event is new, and the described one revises it by title |
| EventRepository.SecondRun | infra/repositories/event_repository.py:74-120 | the second run: the bare event no longer matches and is added again |
| EventRepository.Upcoming | infra/repositories/event_repository.py:49 | `[dl for dl in event.date_locations if dl.date >= now]`: the showtimes from `now` on, in order |
| EventRepository.Swept | infra/repositories/event_repository.py:49-50 | an event after lines 49-50: its showtimes pruned to the upcoming ones, and `is_active` true exactly when some remain |
| EventRepository.Doomed | infra/repositories/event_repository.py:51 | the delete test `not event.is_active and not event.feedback`, evaluated after the prune: no upcoming showtime and no feedback |
| EventRepository.Survivors | infra/repositories/event_repository.py:47-53 | the events the loop of `delete_invalid_events` keeps: every event that is not doomed, swept, in table order |
| EventRepository.Casualties | infra/repositories/event_repository.py:47-53 | the events the loop deletes and returns: every doomed event, swept, in table order |
| EventRepository.UpcomingMembers | infra/repositories/event_repository.py:49 | pruning keeps exactly the showtimes from `now` on |
| EventRepository.UpcomingConcat | infra/repositories/event_repository.py:49 | pruning keeps the order of the showtimes |
| EventRepository.UpcomingAll | infra/repositories/event_repository.py:49 | showtimes none of which is past are kept as they are |
| EventRepository.SweepStep | infra/repositories/event_repository.py:47-53 | the sweep handles the events one at a time, in order |
| EventRepository.SweepPartition | infra/repositories/event_repository.py:47-53 | every event is either kept or deleted |
| EventRepository.SweepSorts | infra/repositories/event_repository.py:49-53 | an event is deleted and returned exactly when it has no upcoming showtime and no feedback; otherwise it is kept |
| EventRepository.SweepShapes | infra/repositories/event_repository.py:49-53 | deleted events have no showtimes, are inactive and have no feedback. Kept events are active exactly when they have showtimes, are active or have feedback, and have only showtimes from `now` on |
| EventRepository.FeedbackProtects | infra/repositories/event_repository.py:51 | an event with feedback is never deleted |
| EventRepository.SweptStable | infra/repositories/event_repository.py:49-50 | a kept event is left alone by a second sweep |
| EventRepository.SweepIdempotent | infra/repositories/event_repository.py:40-54 | sweeping again with the same `now` deletes nothing and changes nothing |
| EventRepository.SurvivorKeys | infra/repositories/event_repository.py:49-50 | every kept event carries the key of an event it came from |
| EventRepository.SweepKeepsKeys | infra/repositories/event_repository.py:40-54 | the sweep keeps `(title, description_hash)` unique |
| EventRepository.AttachOf | infra/repositories/event_repository.py:94-103 | the attached ids are the tags and the category |
| EventRepository.AttachFails | infra/repositories/event_repository.py:94-95 | a failing category or tag lookup is the interest block's error |
| EventRepository.AddOrUpdateOf | infra/repositories/event_repository.py:74-120 | once lookup and attachment succeed: merge into the match, or append |
| EventRepository.AddOrUpdateFails | infra/repositories/event_repository.py:81-95 | a failing lookup or attachment is the error of the call |
| EventRepository.AddBatchStep | infra/repositories/event_repository.py:67-68 | after one successful event, the batch continues from the new catalog; a failure ends it with that error |
| EventRepository.EventCrud.constructor | infra/repositories/event_repository.py:14-16 | a repository over a catalog; its category is the parser's category for the base-URL path |
| EventRepository.EventCrud.UpdateEventDates | infra/repositories/event_repository.py:138-153 | the loop replaces row `i` by `MergeDates` of it, and nothing else changes |
| EventRepository.EventCrud.GetOrCreateParentInterest | infra/repositories/event_repository.py:163-172 | returns and stores what `GetOrCreateParent` gives; the table is unchanged on error |
| EventRepository.EventCrud.GetOrCreateChildInterests | infra/repositories/event_repository.py:174-189 | the loop and flush return and store what `GetOrCreateChildren` gives; the table is unchanged on error |
| EventRepository.EventCrud.LinkInterests | infra/repositories/event_repository.py:96-103 | linking adds exactly the tags and the category to the event's interests |
| EventRepository.EventCrud.FindEvent | infra/repositories/event_repository.py:81-84 | the two queries compute `Lookup` |
| EventRepository.EventCrud.ResolveInterests | infra/repositories/event_repository.py:94-95 | the category and then the tags, as `Attach` gives them |
| EventRepository.EventCrud.MergeInto | infra/repositories/event_repository.py:86-104 | the merge branch leaves the catalog `AddOrUpdate` gives for a match |
| EventRepository.EventCrud.CreateFrom | infra/repositories/event_repository.py:106-120 | the create branch, showtimes copied one by one, leaves the catalog `AddOrUpdate` gives with no match |
| EventRepository.EventCrud.AddOrUpdateEvent | infra/repositories/event_repository.py:74-120 | succeeds exactly when `AddOrUpdate` does, leaving its catalog; otherwise it returns its error |
| EventRepository.EventCrud.AddEventsFromParser | infra/repositories/event_repository.py:63-68 | parses the listing (none when the page is empty) and applies the events in one transaction. On success the catalog is `AddBatch` of them; on an error it stays as it was |
| EventRepository.EventCrud.DeleteInvalidEvents | infra/repositories/event_repository.py:40-54 | the events become the survivors of the sweep, the result is the deleted events, swept and in order, and the interests are unchanged |
| FeedbackRepository.UniquePairs | infra/repositories/feedback_repository.py:18-38 | at most one record per `(user, event)` pair. `user_event_feedback` has no such constraint (domain/models/event.py:27-33); it is an invariant that `feedback_an_event` keeps (`ToggleFrame`) |
| FeedbackRepository.HasPair | infra/repositories/feedback_repository.py:14 | some record holds the `(user, event)` pair the `get_feedback` query asks for |
| FeedbackRepository.PairMatches | infra/repositories/feedback_repository.py:14 | the rows the `get_feedback` query selects: those with that user and that event, in table order |
| FeedbackRepository.Get | infra/repositories/feedback_repository.py:13-16 | `get_feedback`: a found row holds the pair; nothing is found exactly when no row holds it; with unique pairs it never raises |
| FeedbackRepository.PairMatchCount | infra/repositories/feedback_repository.py:13-16 | the query finds nothing without a record, and exactly one row with unique pairs |
| FeedbackRepository.Likes | infra/repositories/feedback_repository.py:13-16 | the `like` values stored for one `(user, event)` pair, in table order (the per-pair view the toggle lemmas state their frame in) |
| FeedbackRepository.Remove | infra/repositories/feedback_repository.py:22 | `session.delete(existing_feedback)`: the table without that one row |
| FeedbackRepository.Toggle | infra/repositories/feedback_repository.py:18-38 | `feedback_an_event` on the table. A pair that already has the sent value is deleted and `None` returned; one with the other value is overwritten and returned; with no record a new one is appended and returned; an error of `get_feedback` is the result (its meaning is proved in `ToggleCreates`, `ToggleWithdraws`, `ToggleOverwrites` and `ToggleFrame`) |
| FeedbackRepository.LikesConcat | infra/repositories/feedback_repository.py:13-16 | the likes stored for a pair, table by part |
| FeedbackRepository.LikesAbsent | infra/repositories/feedback_repository.py:13-16 | a pair no row holds has no likes |
| FeedbackRepository.ToggleCreates | infra/repositories/feedback_repository.py:30-38 | with no record, one with the sent value is added and returned |
| FeedbackRepository.ToggleWithdraws | infra/repositories/feedback_repository.py:20-24 | a record with the same value is deleted and nothing is returned; no record for the pair remains |
| FeedbackRepository.ToggleOverwrites | infra/repositories/feedback_repository.py:25-28 | a record with the other value is overwritten and returned |
| FeedbackRepository.PairHolder | infra/repositories/feedback_repository.py:13-16 | with unique pairs, the row holding a pair is the one found |
| FeedbackRepository.ToggleTwice | infra/repositories/feedback_repository.py:18-38 | sending the same feedback twice from no record restores the table and returns nothing |
| FeedbackRepository.AppendKeepsUnique | infra/repositories/feedback_repository.py:30-33 | a record for an unheld pair keeps pairs unique |
| FeedbackRepository.RemoveKeepsUnique | infra/repositories/feedback_repository.py:21-22 | deleting a row keeps pairs unique |
| FeedbackRepository.ToggleFrame | infra/repositories/feedback_repository.py:18-38 | with unique pairs, a toggle succeeds and keeps pairs unique. Every other pair's likes are unchanged, and the pair holds nothing (exactly when nothing is returned) or the sent value |
| FeedbackRepository.FrameCreate | infra/repositories/feedback_repository.py:30-38 | the create case of the frame property |
| FeedbackRepository.FrameWithdraw | infra/repositories/feedback_repository.py:20-24 | the delete case of the frame property |
| FeedbackRepository.FrameOverwrite | infra/repositories/feedback_repository.py:25-28 | the overwrite case of the frame property |
| FeedbackRepository.OverwriteKeepsUnique | infra/repositories/feedback_repository.py:26 | changing `like` keeps pairs unique |
| FeedbackRepository.DuplicatePairFails | infra/repositories/feedback_repository.py:16 | two records for a pair make `one_or_none`, and so the toggle, raise `MultipleResultsFound` |
| FeedbackRepository.FeedbackCrud.constructor | infra/repositories/feedback_repository.py:10-11 | a repository over a feedback table |
| FeedbackRepository.FeedbackCrud.GetFeedback | infra/repositories/feedback_repository.py:13-16 | the query computes `Get` |
| FeedbackRepository.FeedbackCrud.FeedbackAnEvent | infra/repositories/feedback_repository.py:18-38 | stores and returns what `Toggle` gives; the table is unchanged on error |
| FilterAlgorithm.Children | domain/services/algorithms/filter.py:46-47 | `interest.children`: the interests whose parent is `p` |
| FilterAlgorithm.ChildrenOf | domain/services/algorithms/filter.py:45-47 | the children of every interest of the user, as the loop collects them |
| FilterAlgorithm.Expanded | domain/services/algorithms/filter.py:43-48 | what `_get_all_interest_ids` returns: the ids of the user's interests and of every interest whose parent is one of them |
| FilterAlgorithm.ExpandInterests | domain/services/algorithms/filter.py:43-48 | the expanded set holds exactly the user's interests and the tags directly under one of them |
| FilterAlgorithm.NoGrandchildren | domain/services/algorithms/filter.py:43-48 | expansion goes one level only: a tag two levels down is not included |
| FilterAlgorithm.Seen | domain/services/algorithms/filter.py:38-41 | `_get_seen_event_ids`: the events of every feedback row of the user, liked or not |
| FilterAlgorithm.LikedEvents | domain/services/algorithms/filter.py:55 | `liked_event_ids`: the events the user liked |
| FilterAlgorithm.DislikedEvents | domain/services/algorithms/filter.py:56 | `disliked_event_ids`: the events the user disliked |
| FilterAlgorithm.Split | domain/services/algorithms/filter.py:65-71 | the `liked` and `disliked` sets the loop over the join rows builds: a row of a liked event adds its interest to `liked`; otherwise a row of a disliked event adds it to `disliked` |
| FilterAlgorithm.IsJoin | domain/services/algorithms/filter.py:59-63 | the `(Event.id, Interest.id)` rows of the join: exactly the pairs of an event with feedback and one of its interests, in any order |
| FilterAlgorithm.FeedbackInterestIds | domain/services/algorithms/filter.py:65-71 | the loop over the join rows computes `Split` |
| FilterAlgorithm.SplitMeaning | domain/services/algorithms/filter.py:65-71 | an interest is liked exactly when a row ties it to a liked event, and disliked exactly when a row ties it to a disliked event that is not liked |
| FilterAlgorithm.FeedbackPartition | domain/services/algorithms/filter.py:50-71 | on the join, the interests of a liked event are liked and those of an only-disliked event are disliked; an interest of both ends up in both sets |
| FilterAlgorithm.SplitFromFeedback | domain/services/algorithms/filter.py:50-71 | every liked or disliked interest belongs to an event the user gave feedback on |
| FilterAlgorithm.IsCandidate | domain/services/algorithms/filter.py:86-90 | the where clause of `_get_candidate_events` for one event: active; not seen; some showtime from `now` on; some showtime no later than `now` + 7 days; an interest in the set |
| FilterAlgorithm.Candidates | domain/services/algorithms/filter.py:80-99 | exactly the candidate events (active, not seen, a showtime from `now` on, a showtime by `now` + 7 days, an interest in the set), each once, in table order |
| FilterAlgorithm.NoInterestsNoCandidates | domain/services/algorithms/filter.py:90 | an empty interest set gives no candidates |
| FilterAlgorithm.Soonest | domain/services/algorithms/filter.py:117 | the soonest showtime from `now` on: none exactly when all are past; otherwise a showtime's date, from `now` on and no later than any other such showtime |
| FilterAlgorithm.TemporalBonus | domain/services/algorithms/filter.py:119-125 | -2 exactly below 1 h, +3 exactly in [1 h, 3 h], +1 exactly in (3 h, 24 h], 0 exactly beyond |
| FilterAlgorithm.Score | domain/services/algorithms/filter.py:112-130 | the score `_score_events` gives one event: 3 per interest shared with the user, the temporal bonus of its soonest upcoming showtime, +2 when it has a liked interest and -3 when it has a disliked one |
| FilterAlgorithm.ScoreBounds | domain/services/algorithms/filter.py:111-130 | a score is within 5 of three times the shared interests |
| FilterAlgorithm.ScoreAll | domain/services/algorithms/filter.py:109-133 | the `scored` list: one `{event, score}` entry per candidate, in candidate order |
| FilterAlgorithm.ScoreEvents | domain/services/algorithms/filter.py:101-133 | one entry per candidate, in order, each with the score of its own event: 3 per shared interest, the temporal bonus, +2 with a liked interest and -3 with a disliked one |
| FilterAlgorithm.Insert | domain/services/algorithms/filter.py:27 | inserting one entry into the ranking adds exactly that entry |
| FilterAlgorithm.SortByScore | domain/services/algorithms/filter.py:27 | the sort is a permutation |
| FilterAlgorithm.InsertSorted | domain/services/algorithms/filter.py:27 | inserting keeps the ranking ordered |
| FilterAlgorithm.SortSorted | domain/services/algorithms/filter.py:27 | the ranking is ordered by score, highest first |
| FilterAlgorithm.InsertStable | domain/services/algorithms/filter.py:27 | an entry inserted ahead of an ordered ranking is placed first among its equal scores |
| FilterAlgorithm.SortStable | domain/services/algorithms/filter.py:27 | the sort is stable: entries with equal scores keep the candidates' order |
| FilterAlgorithm.Take | domain/services/algorithms/filter.py:27 | `[:limit]`: Python's slice length, including negative limits, and a prefix |
| FilterAlgorithm.TopLength | domain/services/algorithms/filter.py:27 | the cut ranking has `min(limit, n)` entries for a non-negative limit, and `max(0, n + limit)` for a negative one |
| FilterAlgorithm.TopMembers | domain/services/algorithms/filter.py:27 | every kept entry is a scored candidate |
| FilterAlgorithm.TopSorted | domain/services/algorithms/filter.py:27 | the kept entries are ordered by score |
| FilterAlgorithm.TopStable | domain/services/algorithms/filter.py:27 | among equal scores, the kept entries are the first candidates with that score, in candidate order |
| FilterAlgorithm.TopBest | domain/services/algorithms/filter.py:27 | a candidate left out scores no higher than any candidate kept |
| FilterAlgorithm.Ids | domain/services/algorithms/filter.py:28 | the event of each kept entry, in order |
| FilterAlgorithm.Ranked | domain/services/algorithms/filter.py:19-25 | the scored candidates `filter` sorts: the expanded interests, the feedback split, the candidates outside the seen events, each with its score |
| FilterAlgorithm.Top | domain/services/algorithms/filter.py:27 | `top_n`: the scored candidates sorted by score, highest first and stably, then cut with `[:limit]` |
| FilterAlgorithm.Recommended | domain/services/algorithms/filter.py:16-28 | what `filter` returns: the events of `top_n`, in order (its meaning is proved in `RecommendedCandidates`, `RecommendedOrder` and `RecommendedBest`) |
| FilterAlgorithm.Filter | domain/services/algorithms/filter.py:16-28 | `filter` computes `Recommended` |
| FilterAlgorithm.RankedEntry | domain/services/algorithms/filter.py:24-25 | every entry of the ranking is a candidate |
| FilterAlgorithm.RecommendedCandidates | domain/services/algorithms/filter.py:16-28 | `filter` returns `min(limit, #candidates)` ids (none for `limit = 0`); each is a candidate, so never an event the user gave feedback on |
| FilterAlgorithm.DefaultLimitRecommended | domain/services/algorithms/filter.py:16 | with its default `limit = 10` (the one `rec.filter()` in the events router passes), `filter` returns `min(10, #candidates)` ids |
| FilterAlgorithm.RecommendedOrder | domain/services/algorithms/filter.py:27 | the kept candidates come highest score first, and among equal scores in candidate order |
| FilterAlgorithm.RecommendedBest | domain/services/algorithms/filter.py:27 | a candidate left out scores no higher than any kept |
| FilterAlgorithm.FeedbackOfOne | domain/services/algorithms/filter.py:38-56 | the seen, liked and disliked events of a single record |
| FilterAlgorithm.SplitOfDisliked | domain/services/algorithms/filter.py:66-70 | a join row of an only-disliked event makes its interest disliked |
| FilterAlgorithm.ExpandedSingle | domain/services/algorithms/filter.py:43-48 | one interest with no tags under it expands to itself |
| FilterAlgorithm.MusicEvent | domain/services/algorithms/filter.py:80-130 | an active event sharing the one interest, with a showtime 2 h ahead, is a candidate scoring 6, or 3 when the interest is disliked |
| FilterAlgorithm.SingleCandidate | domain/services/algorithms/filter.py:16-28 | a single candidate is the whole ranking, and is returned for any positive limit |
| FilterAlgorithm.CandidatesOfTwo | domain/services/algorithms/filter.py:80-99 | an event sharing no interest is never a candidate |
| FilterAlgorithm.CandidatesOfThree | domain/services/algorithms/filter.py:87 | a seen event is never a candidate |
| FilterAlgorithm.MusicScenario | domain/services/algorithms/filter.py:16-133 | a user interested in Music with no feedback, event A (Music, 2 h ahead) and event B (other interests): only A is returned, with score 3 + 3 = 6 |
| FilterAlgorithm.DislikeJoin | domain/services/algorithms/filter.py:58-63 | the join for one disliked Music event is one row |
| FilterAlgorithm.DislikeScenario | domain/services/algorithms/filter.py:16-133 | after disliking a Music event, A scores 6 - 3 = 3 and is still returned alone; B is still no candidate, and the disliked event is excluded as seen |

## Left out

- Network I/O is out:
  - the `httpx` calls;
  - `fetch_html` and its 5-attempt loop with 2-second sleeps;
  - `fetch_with_semaphore` and its bound of 20 concurrent requests.

  Foreign code, concurrency and timing are not modelled. A detail fetch is an oracle `fetch(stub, round)`: `None` stands for a raised error, otherwise it holds a `Details` value that the model leaves unconstrained; nothing ties it to `DetailsOf`, which states what `fetch_event_details` computes from a page. `asyncio.gather` keeps the order of its tasks, so the rounds are sequential.
- `fetch_html` re-raises after its last failure and does not return `None`, so `parse` never returns `[]` on a network failure. `EventCrud.AddEventsFromParser` takes the listing as an `Option`; `None` is an empty page.
- HTML parsing with BeautifulSoup is out. A listing item comes in as its title tag and image tag. A detail page comes in as its description text, its tag texts, and its showtime anchors, each with its date attribute, its schedule item place and address, and its `data-category`. The CSS selectors and the `find_parent` search are not modelled.
- `urlparse` is foreign. `ParentNameFromPath` takes the path of the base URL.
- `hashlib.md5` is out: the description hash is a parameter `hash: string -> string`, and nothing is assumed about it. It is not even assumed that the result has 32 characters. The batch lemma `BatchNotIdempotent` asks only that `hash("")` differ from the hash of the description.
- `datetime.now()` is a parameter `now`. Datetimes are whole seconds since 0001-01-01 00:00.
- `_score_events` divides `total_seconds()` by 3600 as a float. The model compares integer seconds against 3600, 10800 and 86400. This gives the same bands for a whole-second `now`. `datetime.now()` carries microseconds, and a showtime exactly an hour after the truncated `now` can fall in another band.
- `strptime` is modelled only for the fixed pattern `%m/%d/%Y %H:%M`, with its field widths and calendar checks. Locale handling and the rest of its leniency are out.
- `str.isspace` is modelled over its full character set. `str.isdigit` and `\d` are ASCII digits only. `str.lower` is modelled for ASCII and the basic Cyrillic capitals (U+0400 to U+042F); other scripts are left unchanged.
- EventCrud.AddOrUpdateEvent does not state the catalog after an error, because at that point the session is inconsistent in the source too. `AddEventsFromParser` restores the catalog from before the batch, as the rollback of `session.begin()` does.
- `event.interests` is a set of interest ids, not a list, so `Attach`, `EventCrud.LinkInterests` and `AddOrUpdateCreates` collapse repeated interests. The source list can hold a repeat before the flush:
  - the page's tags are not deduplicated (domain/services/afisha/events_service.py:88-91);
  - a tag name repeated among them gets the same stored `Interest` twice from `_get_or_create_child_interests` (infra/repositories/event_repository.py:182-187);
  - `new_event.interests.extend(...)` appends both copies (infra/repositories/event_repository.py:116);
  - the merge branch tests against `interests_set`, built once before its loop and never updated, so it appends a repeat too (infra/repositories/event_repository.py:96-100).

  What the flush then does with a repeated link depends on the association table's constraints. That table is not part of this model. The order of the list is not modelled either.
- EventRepository.AddOrUpdateCreates: assumes a new event is active. The source builds it as `Event(title=..., description=..., description_hash=...)` (infra/repositories/event_repository.py:108) and never sets `is_active`. Its value comes from the column default, which is not part of this model.
- EventRepository.CreateUntagged: the same assumption that a new row is active.
- EventRepository.EventCrud.CreateFrom: the same assumption that a new row is active.
- Query results come back in table order, row ids are table positions, and new rows take the next id. Row order in the database is not specified, so any order is possible there.
- FeedbackRepository.Toggle, ToggleFrame and ToggleCreates: the foreign keys `user_event_feedback.user_id` and `event_id` (domain/models/event.py:31-32) are not modelled. A toggle for an unknown user or event raises `IntegrityError` at commit in the source, but succeeds in the model.
- The `(event, interest)` rows of the join query in `_get_feedback_interest_ids` are a parameter of the filter. `FilterAlgorithm.IsJoin` states what they must be, and the partition lemmas assume it.
- The feedback count of an event stands for its `feedback` relationship. The sweep tests only whether it is zero.
- `EventCRUD.event_create` is out: it reads fields its input schema does not have. `get_all_events` is a plain read. `FilterAlgorithm._get_linked_events` is never called. `_get_linked_user` and `_get_interests_by_names` are plain reads.
- `EventRead`, `FeedbackRead` and `model_validate` are only conversions to output schemas: results are the model's own rows.
- SQLAlchemy sessions, `flush`, `commit` and `refresh` are out: each call is one step on in-memory tables.

## Notes on the code

What the code does in a few places that are easy to misread:

- `retry_request` runs `max_retries = 3` resubmission rounds after the initial gather. A stub therefore gets up to 4 requests (`EventScraper.RequestsPerStub`).
- `get_parent_name_from_url` never reaches its final `return "Unknown"`, because `split` always returns at least one element. An empty path still gives Unknown through the map's default.
- `normalize_description("   ")` is `""`, not `None`. Normalising twice therefore equals normalising once only when the first result is not `""` (`EventsService.NormalizeIdempotent`, `EventsService.NormalizeBlank`).
- `_get_or_create_parent_interest` looks the category up by name only. A tag that shares the category's name is taken as the category, so the parent relation can reach depth 2.
- Running the same batch twice can add a row (`EventRepository.BatchNotIdempotent`). A title sent with an empty description no longer matches once a row with that title holds a description, so it is created again.
- A title-only fallback that hits several rows raises `MultipleResultsFound`, and the whole batch is rolled back with it (`EventRepository.AmbiguousTitle`, `EventRepository.BatchAborts`).
- The two showtime conditions of `_get_candidate_events` can be met by different showtimes, so no single showtime in `[now, now + 7 days]` is required.
- The feedback table is a sequence of rows, not a map. Two rows for one pair make `one_or_none` raise (`FeedbackRepository.DuplicatePairFails`); on a table with unique pairs that never happens (`FeedbackRepository.ToggleFrame`).
