/**
 * The listing side of `EventParser`: the stubs read off the listing page, the
 * initial round of detail fetches, the resubmission rounds of `retry_request`
 * and the final filter of `parse_events_from_html`.
 *
 * A detail fetch is an input: `fetch(i, r)` is what requesting the detail page
 * of stub `i` gives in round `r` (round 0 is the initial fetch, rounds 1 to 3
 * are the resubmissions), `None` where the request or the page handling
 * raises. Each request is recorded in a ghost log of `(stub, round)` pairs.
 */
module EventScraper {
  import opened Wrappers
  import opened PyStr
  import opened EventsService

  /** `retry_request`'s default `max_retries`, the one `parse_events_from_html` uses. */
  const MaxRetries: nat := 3

  type Fetcher = (nat, nat) -> Option<Details>

  /** The title link of a listing item: its stripped-before text and its `href`. */
  datatype TitleTag = TitleTag(text: string, href: Option<string>)

  datatype ImgTag = ImgTag(src: Option<string>, dataSrc: Option<string>)

  /** A `div.b-afisha-layout_strap--item`, with its title link and first image, where present. */
  datatype ListingItem = ListingItem(titleTag: Option<TitleTag>, img: Option<ImgTag>)

  /** The dictionary built for a listing item before its details are fetched. */
  datatype Stub = Stub(title: string, link: string, img: Option<string>)

  /** A stub after `event.update(details)`. */
  datatype ScrapedEvent = ScrapedEvent(
    title: string,
    link: string,
    img: Option<string>,
    description: Option<string>,
    interests: seq<string>,
    dateLocations: seq<Slot>)

  // ------------------------------------------------------------ the listing

  /** The stub of a listing item; `None` for the items the loop skips. */
  function StubOf(item: ListingItem): (r: Option<Stub>)
    ensures r.Some? <==>
      item.titleTag.Some? && Strip(item.titleTag.value.text) != "" && Truthy(item.titleTag.value.href)
    ensures r.Some? ==> r.value.title != "" && r.value.link != "" && Strip(r.value.title) == r.value.title
  {
    match item.titleTag
    case None => None
    case Some(tag) =>
      var title := Strip(tag.text);
      if title == "" || !Truthy(tag.href) then None
      else
        StripOfStripped(title);
        var img := if item.img.Some? then OrElse(item.img.value.src, item.img.value.dataSrc) else None;
        Some(Stub(title, tag.href.value, img))
  }

  function Stubs(items: seq<ListingItem>): (r: seq<Stub>)
    ensures |r| <= |items|
    ensures forall k :: 0 <= k < |r| ==> r[k].title != "" && r[k].link != ""
  {
    if items == [] then []
    else
      var s := StubOf(items[|items| - 1]);
      Stubs(items[..|items| - 1]) + (if s.Some? then [s.value] else [])
  }

  /** Every listing item with a title and a link gives a stub, in listing order. */
  lemma {:induction false} StubsKeepOrder(items: seq<ListingItem>, item: ListingItem)
    ensures Stubs(items + [item]) == Stubs(items) + (if StubOf(item).Some? then [StubOf(item).value] else [])
  {
    assert (items + [item])[..|items|] == items;
  }

  /** The first loop of `parse_events_from_html`. */
  method CollectStubs(items: seq<ListingItem>) returns (events: seq<Stub>)
    ensures events == Stubs(items)
  {
    events := [];
    var i := 0;
    while i < |items|
      invariant 0 <= i <= |items|
      invariant events == Stubs(items[..i])
    {
      var item := items[i];
      assert items[..i + 1] == items[..i] + [item];
      StubsKeepOrder(items[..i], item);
      i := i + 1;
      if item.titleTag.None? {
        continue;
      }
      var title := Strip(item.titleTag.value.text);
      var link := item.titleTag.value.href;
      if title == "" || !Truthy(link) {
        continue;
      }
      var imgUrl := if item.img.Some? then OrElse(item.img.value.src, item.img.value.dataSrc) else None;
      events := events + [Stub(title, link.value, imgUrl)];
    }
    assert items[..i] == items;
  }

  // ------------------------------------------------------------ one round of fetches

  /** Every stub index of `pending` is below `n`. */
  predicate InRange(pending: seq<nat>, n: nat) {
    forall k :: 0 <= k < |pending| ==> pending[k] < n
  }

  predicate Increasing(s: seq<nat>) {
    forall a, b :: 0 <= a < b < |s| ==> s[a] < s[b]
  }

  /** `event.update(details)`. */
  function Merge(stub: Stub, details: Details): (e: ScrapedEvent)
    ensures e.title == stub.title && e.link == stub.link && e.img == stub.img
    ensures e.description == details.description && e.interests == details.interests
    ensures e.dateLocations == details.dateLocations
  {
    ScrapedEvent(stub.title, stub.link, stub.img, details.description, details.interests, details.dateLocations)
  }

  /** The events of round `round`: the stubs of `pending` whose fetch succeeded, merged with their details, in order. */
  function Won(stubs: seq<Stub>, pending: seq<nat>, round: nat, fetch: Fetcher): (r: seq<ScrapedEvent>)
    requires InRange(pending, |stubs|)
    ensures |r| <= |pending|
  {
    if pending == [] then []
    else
      var i := pending[|pending| - 1];
      var rest := Won(stubs, pending[..|pending| - 1], round, fetch);
      match fetch(i, round)
      case Some(page) => rest + [Merge(stubs[i], page)]
      case None => rest
  }

  /** The stubs of `pending` whose fetch in round `round` succeeded (`succeeded`) or failed (`!succeeded`), in order. */
  function Sift(pending: seq<nat>, round: nat, fetch: Fetcher, succeeded: bool): (r: seq<nat>)
    ensures |r| <= |pending|
  {
    if pending == [] then []
    else
      var i := pending[|pending| - 1];
      var rest := Sift(pending[..|pending| - 1], round, fetch, succeeded);
      if fetch(i, round).Some? == succeeded then rest + [i] else rest
  }

  /** The stubs of `pending` whose fetch in round `round` failed, in order. */
  function Lost(pending: seq<nat>, round: nat, fetch: Fetcher): seq<nat> {
    Sift(pending, round, fetch, false)
  }

  /** The stubs of `pending` whose fetch in round `round` succeeded, in order. */
  function Winners(pending: seq<nat>, round: nat, fetch: Fetcher): seq<nat> {
    Sift(pending, round, fetch, true)
  }

  lemma {:induction false} SiftMembers(pending: seq<nat>, round: nat, fetch: Fetcher, succeeded: bool, i: nat)
    ensures i in Sift(pending, round, fetch, succeeded) <==> i in pending && fetch(i, round).Some? == succeeded
  {
    if pending != [] {
      var init := pending[..|pending| - 1];
      assert pending == init + [pending[|pending| - 1]];
      SiftMembers(init, round, fetch, succeeded, i);
    }
  }

  lemma {:induction false} SiftInRange(pending: seq<nat>, round: nat, fetch: Fetcher, succeeded: bool, n: nat)
    requires InRange(pending, n)
    ensures InRange(Sift(pending, round, fetch, succeeded), n)
  {
    if pending != [] {
      SiftInRange(pending[..|pending| - 1], round, fetch, succeeded, n);
    }
  }

  lemma {:induction false} SiftIncreasing(pending: seq<nat>, round: nat, fetch: Fetcher, succeeded: bool)
    requires Increasing(pending)
    ensures Increasing(Sift(pending, round, fetch, succeeded))
  {
    if pending != [] {
      var init := pending[..|pending| - 1];
      SiftIncreasing(init, round, fetch, succeeded);
      SiftInRange(init, round, fetch, succeeded, pending[|pending| - 1]);
    }
  }

  /** The requests of one round, as `(stub, round)` pairs. */
  function Tag(pending: seq<nat>, round: nat): (r: seq<(nat, nat)>)
    ensures |r| == |pending|
    ensures forall k :: 0 <= k < |r| ==> r[k] == (pending[k], round)
  {
    if pending == [] then [] else Tag(pending[..|pending| - 1], round) + [(pending[|pending| - 1], round)]
  }

  /**
   * The `zip(events, results)` loop of one round: merge the successes, and
   * queue the failures for the next round when `requeue` holds.
   */
  method GatherRound(stubs: seq<Stub>, pending: seq<nat>, round: nat, fetch: Fetcher, requeue: bool)
    returns (won: seq<ScrapedEvent>, lost: seq<nat>, ghost requests: seq<(nat, nat)>)
    requires InRange(pending, |stubs|)
    ensures won == Won(stubs, pending, round, fetch)
    ensures lost == if requeue then Lost(pending, round, fetch) else []
    ensures requests == Tag(pending, round)
  {
    won, lost, requests := [], [], [];
    var k := 0;
    while k < |pending|
      invariant 0 <= k <= |pending|
      invariant InRange(pending[..k], |stubs|)
      invariant won == Won(stubs, pending[..k], round, fetch)
      invariant lost == if requeue then Lost(pending[..k], round, fetch) else []
      invariant requests == Tag(pending[..k], round)
    {
      var i := pending[k];
      assert pending[..k + 1][..k] == pending[..k];
      assert pending[..k + 1][k] == i;
      requests := requests + [(i, round)];
      match fetch(i, round) {
        case None =>
          if requeue {
            lost := lost + [i];
          }
        case Some(page) =>
          var details := page;
          won := won + [Merge(stubs[i], details)];
      }
      k := k + 1;
    }
    assert pending[..k] == pending;
  }

  // ------------------------------------------------------------ retry_request

  /** What `retry_request(pending, max_retries)` returns, starting at resubmission `attempt`. */
  function RetrySpec(stubs: seq<Stub>, pending: seq<nat>, attempt: nat, maxRetries: nat, fetch: Fetcher): seq<ScrapedEvent>
    requires InRange(pending, |stubs|)
    decreases maxRetries + 1 - attempt
  {
    if pending == [] || attempt > maxRetries then []
    else
      SiftInRange(pending, attempt, fetch, false, |stubs|);
      Won(stubs, pending, attempt, fetch) + RetrySpec(stubs, Lost(pending, attempt, fetch), attempt + 1, maxRetries, fetch)
  }

  /** The requests `retry_request` makes, starting at resubmission `attempt`. */
  function RetryRequests(pending: seq<nat>, attempt: nat, maxRetries: nat, fetch: Fetcher): seq<(nat, nat)>
    decreases maxRetries + 1 - attempt
  {
    if pending == [] || attempt > maxRetries then []
    else Tag(pending, attempt) + RetryRequests(Lost(pending, attempt, fetch), attempt + 1, maxRetries, fetch)
  }

  /**
   * `retry_request`: up to `maxRetries` rounds over the stubs still failing,
   * stopping as soon as none is left; failures of the last round are dropped.
   */
  method RetryRequest(stubs: seq<Stub>, retryEvents: seq<nat>, fetch: Fetcher, maxRetries: nat)
    returns (filtered: seq<ScrapedEvent>, ghost requests: seq<(nat, nat)>)
    requires InRange(retryEvents, |stubs|)
    ensures filtered == RetrySpec(stubs, retryEvents, 1, maxRetries, fetch)
    ensures requests == RetryRequests(retryEvents, 1, maxRetries, fetch)
  {
    ghost var total, totalRequests := RetrySpec(stubs, retryEvents, 1, maxRetries, fetch), RetryRequests(retryEvents, 1, maxRetries, fetch);
    filtered, requests := [], [];
    var pending := retryEvents;
    var attempt := 1;
    while attempt <= maxRetries
      invariant 1 <= attempt
      invariant InRange(pending, |stubs|)
      invariant filtered + RetrySpec(stubs, pending, attempt, maxRetries, fetch) == total
      invariant requests + RetryRequests(pending, attempt, maxRetries, fetch) == totalRequests
      decreases maxRetries + 1 - attempt
    {
      var won, next, reqs := GatherRound(stubs, pending, attempt, fetch, attempt < maxRetries);
      RoundAdvance(stubs, pending, attempt, maxRetries, fetch);
      Accumulate(filtered, won, RetrySpec(stubs, pending, attempt, maxRetries, fetch),
        RetrySpec(stubs, next, attempt + 1, maxRetries, fetch), total);
      Accumulate(requests, reqs, RetryRequests(pending, attempt, maxRetries, fetch),
        RetryRequests(next, attempt + 1, maxRetries, fetch), totalRequests);
      filtered := filtered + won;
      requests := requests + reqs;
      pending := next;
      if pending == [] {
        assert filtered + [] == filtered && requests + [] == requests;
        break;
      }
      attempt := attempt + 1;
    }
    assert filtered + [] == filtered && requests + [] == requests;
  }

  /** Moving one round's output from the rounds still to come onto what is already collected. */
  lemma Accumulate<T>(acc: seq<T>, out: seq<T>, step: seq<T>, rest: seq<T>, total: seq<T>)
    requires acc + step == total && step == out + rest
    ensures (acc + out) + rest == total
  {
    assert (acc + out) + rest == acc + (out + rest);
  }

  /**
   * One resubmission round: its successes, then what the later rounds make
   * of the stubs it queues again (none after the last resubmission).
   */
  lemma RoundAdvance(stubs: seq<Stub>, pending: seq<nat>, attempt: nat, maxRetries: nat, fetch: Fetcher)
    requires InRange(pending, |stubs|) && attempt <= maxRetries
    ensures var next := if attempt < maxRetries then Lost(pending, attempt, fetch) else [];
      && InRange(next, |stubs|)
      && RetrySpec(stubs, pending, attempt, maxRetries, fetch)
        == Won(stubs, pending, attempt, fetch) + RetrySpec(stubs, next, attempt + 1, maxRetries, fetch)
      && RetryRequests(pending, attempt, maxRetries, fetch)
        == Tag(pending, attempt) + RetryRequests(next, attempt + 1, maxRetries, fetch)
      && RetrySpec(stubs, [], attempt + 1, maxRetries, fetch) == []
      && RetryRequests([], attempt + 1, maxRetries, fetch) == []
  {
    RetryStep(stubs, pending, attempt, maxRetries, fetch);
    RequestsStep(pending, attempt, maxRetries, fetch);
  }

  // ------------------------------------------------------------ parse_events_from_html

  /** `[0, 1, ..., n - 1]`: every stub takes part in the initial round. */
  function Indices(n: nat): (r: seq<nat>)
    ensures |r| == n
    ensures forall k :: 0 <= k < n ==> r[k] == k
  {
    if n == 0 then [] else Indices(n - 1) + [n - 1]
  }

  lemma IndicesMembers(n: nat, i: nat)
    ensures i in Indices(n) <==> i < n
  {
    if i < n {
      assert Indices(n)[i] == i;
    }
  }

  /** `[e for e in events if e.get("date_locations")]`. */
  function WithShowtimes(events: seq<ScrapedEvent>): (r: seq<ScrapedEvent>)
    ensures |r| <= |events|
    ensures forall e :: e in r <==> e in events && e.dateLocations != []
  {
    if events == [] then []
    else
      var e := events[|events| - 1];
      assert forall x :: x in events <==> x in events[..|events| - 1] || x == e;
      WithShowtimes(events[..|events| - 1]) + (if e.dateLocations != [] then [e] else [])
  }

  /** What `parse_events_from_html` returns for a listing, given the fetch outcomes. */
  function ParseEvents(items: seq<ListingItem>, fetch: Fetcher): seq<ScrapedEvent> {
    var stubs := Stubs(items);
    var all := Indices(|stubs|);
    SiftInRange(all, 0, fetch, false, |stubs|);
    WithShowtimes(Won(stubs, all, 0, fetch) + RetrySpec(stubs, Lost(all, 0, fetch), 1, MaxRetries, fetch))
  }

  /** Every request `parse_events_from_html` makes, in order. */
  function AllRequests(n: nat, fetch: Fetcher): seq<(nat, nat)> {
    var all := Indices(n);
    Tag(all, 0) + RetryRequests(Lost(all, 0, fetch), 1, MaxRetries, fetch)
  }

  method ParseEventsFromHtml(items: seq<ListingItem>, fetch: Fetcher)
    returns (events: seq<ScrapedEvent>, ghost requests: seq<(nat, nat)>)
    ensures events == ParseEvents(items, fetch)
    ensures requests == AllRequests(|Stubs(items)|, fetch)
  {
    var stubs := CollectStubs(items);
    var filteredEvents, retryEvents, reqs := GatherRound(stubs, Indices(|stubs|), 0, fetch, true);
    SiftInRange(Indices(|stubs|), 0, fetch, false, |stubs|);
    requests := reqs;
    if retryEvents != [] {
      var retry, retryReqs := RetryRequest(stubs, retryEvents, fetch, MaxRetries);
      filteredEvents := filteredEvents + retry;
      requests := requests + retryReqs;
    } else {
      assert RetrySpec(stubs, retryEvents, 1, MaxRetries, fetch) == [];
      assert RetryRequests(retryEvents, 1, MaxRetries, fetch) == [];
      assert filteredEvents + [] == filteredEvents;
      assert requests + [] == requests;
    }
    events := WithShowtimes(filteredEvents);
  }

  // ------------------------------------------------------------ the rounds, declaratively

  /** The stubs taking part in round `r`: all of them in round 0, then those that failed the round before. */
  function Pending(n: nat, r: nat, fetch: Fetcher): (p: seq<nat>)
    ensures InRange(p, n)
  {
    if r == 0 then Indices(n)
    else
      var before := Pending(n, r - 1, fetch);
      SiftInRange(before, r - 1, fetch, false, n);
      Lost(before, r - 1, fetch)
  }

  lemma {:induction false} PendingIncreasing(n: nat, r: nat, fetch: Fetcher)
    ensures Increasing(Pending(n, r, fetch))
  {
    if r > 0 {
      PendingIncreasing(n, r - 1, fetch);
      SiftIncreasing(Pending(n, r - 1, fetch), r - 1, fetch, false);
    }
  }

  /** A stub takes part in round `r + 1` exactly when it took part in round `r` and failed there. */
  lemma PendingStep(n: nat, r: nat, fetch: Fetcher, i: nat)
    ensures i in Pending(n, r + 1, fetch) <==> i in Pending(n, r, fetch) && fetch(i, r).None?
  {
    SiftMembers(Pending(n, r, fetch), r, fetch, false, i);
  }

  /** A stub takes part in round `r` exactly when every earlier round failed for it. */
  lemma {:induction false} PendingMembers(n: nat, r: nat, fetch: Fetcher, i: nat)
    ensures i in Pending(n, r, fetch) <==> i < n && forall q :: 0 <= q < r ==> fetch(i, q).None?
  {
    if r == 0 {
      IndicesMembers(n, i);
    } else {
      PendingMembers(n, r - 1, fetch, i);
      PendingStep(n, r - 1, fetch, i);
      if forall q :: 0 <= q < r - 1 ==> fetch(i, q).None? {
        if fetch(i, r - 1).None? {
          assert forall q :: 0 <= q < r ==> fetch(i, q).None?;
        }
      }
    }
  }

  lemma RetryStep(stubs: seq<Stub>, pending: seq<nat>, attempt: nat, maxRetries: nat, fetch: Fetcher)
    requires InRange(pending, |stubs|) && attempt <= maxRetries
    ensures InRange(Lost(pending, attempt, fetch), |stubs|)
    ensures RetrySpec(stubs, pending, attempt, maxRetries, fetch)
      == Won(stubs, pending, attempt, fetch) + RetrySpec(stubs, Lost(pending, attempt, fetch), attempt + 1, maxRetries, fetch)
  {
    SiftInRange(pending, attempt, fetch, false, |stubs|);
    if pending == [] {
      assert Lost(pending, attempt, fetch) == [];
    }
  }

  lemma RequestsStep(pending: seq<nat>, attempt: nat, maxRetries: nat, fetch: Fetcher)
    requires attempt <= maxRetries
    ensures RetryRequests(pending, attempt, maxRetries, fetch)
      == Tag(pending, attempt) + RetryRequests(Lost(pending, attempt, fetch), attempt + 1, maxRetries, fetch)
  {
    if pending == [] {
      assert Lost(pending, attempt, fetch) == [];
    }
  }

  /** The requests are those of round 0, then of resubmissions 1, 2 and 3. */
  lemma RequestsByRounds(n: nat, fetch: Fetcher)
    ensures AllRequests(n, fetch) == Tag(Pending(n, 0, fetch), 0) + Tag(Pending(n, 1, fetch), 1)
      + Tag(Pending(n, 2, fetch), 2) + Tag(Pending(n, 3, fetch), 3)
  {
    PendingFirstRounds(n, fetch);
    RetryRequestsByRounds(n, fetch);
    Assoc(Tag(Pending(n, 0, fetch), 0), Tag(Pending(n, 1, fetch), 1), Tag(Pending(n, 2, fetch), 2), Tag(Pending(n, 3, fetch), 3));
  }

  lemma RetryRequestsByRounds(n: nat, fetch: Fetcher)
    ensures RetryRequests(Pending(n, 1, fetch), 1, MaxRetries, fetch)
      == Tag(Pending(n, 1, fetch), 1) + Tag(Pending(n, 2, fetch), 2) + Tag(Pending(n, 3, fetch), 3)
  {
    var p3, p4 := Pending(n, 3, fetch), Pending(n, 4, fetch);
    RequestsFromPending(n, 1, fetch);
    RequestsFromPending(n, 2, fetch);
    RequestsFromPending(n, 3, fetch);
    assert RetryRequests(p4, 4, MaxRetries, fetch) == [];
    assert RetryRequests(p3, 3, MaxRetries, fetch) == Tag(p3, 3);
  }

  lemma RequestsFromPending(n: nat, r: nat, fetch: Fetcher)
    requires 1 <= r <= MaxRetries
    ensures RetryRequests(Pending(n, r, fetch), r, MaxRetries, fetch)
      == Tag(Pending(n, r, fetch), r) + RetryRequests(Pending(n, r + 1, fetch), r + 1, MaxRetries, fetch)
  {
    RequestsStep(Pending(n, r, fetch), r, MaxRetries, fetch);
    assert Pending(n, r + 1, fetch) == Lost(Pending(n, r, fetch), r, fetch);
  }

  /**
   * The result lists the initial successes in listing order, then the
   * successes of resubmission 1, 2 and 3, each in listing order, and keeps
   * only events that have showtimes.
   */
  lemma ParseEventsByRounds(items: seq<ListingItem>, fetch: Fetcher)
    ensures var stubs := Stubs(items);
      var n := |stubs|;
      ParseEvents(items, fetch) == WithShowtimes(
        Won(stubs, Pending(n, 0, fetch), 0, fetch) + Won(stubs, Pending(n, 1, fetch), 1, fetch)
        + Won(stubs, Pending(n, 2, fetch), 2, fetch) + Won(stubs, Pending(n, 3, fetch), 3, fetch))
  {
    var stubs := Stubs(items);
    WonByRounds(stubs, fetch);
  }

  lemma WonByRounds(stubs: seq<Stub>, fetch: Fetcher)
    ensures var n := |stubs|;
      InRange(Lost(Indices(n), 0, fetch), n) &&
      Won(stubs, Indices(n), 0, fetch) + RetrySpec(stubs, Lost(Indices(n), 0, fetch), 1, MaxRetries, fetch)
      == Won(stubs, Pending(n, 0, fetch), 0, fetch) + Won(stubs, Pending(n, 1, fetch), 1, fetch)
        + Won(stubs, Pending(n, 2, fetch), 2, fetch) + Won(stubs, Pending(n, 3, fetch), 3, fetch)
  {
    var n := |stubs|;
    PendingFirstRounds(n, fetch);
    RetriesByRounds(stubs, fetch);
    Assoc(Won(stubs, Pending(n, 0, fetch), 0, fetch), Won(stubs, Pending(n, 1, fetch), 1, fetch),
      Won(stubs, Pending(n, 2, fetch), 2, fetch), Won(stubs, Pending(n, 3, fetch), 3, fetch));
  }

  lemma PendingFirstRounds(n: nat, fetch: Fetcher)
    ensures Pending(n, 0, fetch) == Indices(n)
    ensures Pending(n, 1, fetch) == Lost(Indices(n), 0, fetch)
  {
  }

  lemma Assoc<T>(a: seq<T>, b: seq<T>, c: seq<T>, d: seq<T>)
    ensures a + (b + c + d) == a + b + c + d
  {
  }

  /** The resubmissions are rounds 1, 2 and 3 over the stubs still pending. */
  lemma RetriesByRounds(stubs: seq<Stub>, fetch: Fetcher)
    ensures var n := |stubs|;
      RetrySpec(stubs, Pending(n, 1, fetch), 1, MaxRetries, fetch)
      == Won(stubs, Pending(n, 1, fetch), 1, fetch)
        + Won(stubs, Pending(n, 2, fetch), 2, fetch) + Won(stubs, Pending(n, 3, fetch), 3, fetch)
  {
    var n := |stubs|;
    var p1, p2, p3, p4 := Pending(n, 1, fetch), Pending(n, 2, fetch), Pending(n, 3, fetch), Pending(n, 4, fetch);
    var w1, w2, w3 := Won(stubs, p1, 1, fetch), Won(stubs, p2, 2, fetch), Won(stubs, p3, 3, fetch);
    RetryFromPending(stubs, 1, fetch);
    RetryFromPending(stubs, 2, fetch);
    RetryFromPending(stubs, 3, fetch);
    assert RetrySpec(stubs, p4, 4, MaxRetries, fetch) == [];
    assert RetrySpec(stubs, p3, 3, MaxRetries, fetch) == w3;
    assert RetrySpec(stubs, p2, 2, MaxRetries, fetch) == w2 + w3;
  }

  /** Resubmission `r` of the stubs still pending, followed by the later resubmissions. */
  lemma RetryFromPending(stubs: seq<Stub>, r: nat, fetch: Fetcher)
    requires 1 <= r <= MaxRetries
    ensures var n := |stubs|;
      RetrySpec(stubs, Pending(n, r, fetch), r, MaxRetries, fetch)
      == Won(stubs, Pending(n, r, fetch), r, fetch) + RetrySpec(stubs, Pending(n, r + 1, fetch), r + 1, MaxRetries, fetch)
  {
    var n := |stubs|;
    RetryStep(stubs, Pending(n, r, fetch), r, MaxRetries, fetch);
    assert Pending(n, r + 1, fetch) == Lost(Pending(n, r, fetch), r, fetch);
  }

  // ------------------------------------------------------------ per stub

  /** The first round, from `from` to the last resubmission, whose fetch of stub `i` succeeds. */
  function FirstRound(i: nat, from: nat, fetch: Fetcher): (r: Option<nat>)
    ensures r.Some? ==> from <= r.value <= MaxRetries && fetch(i, r.value).Some?
    ensures r.Some? ==> forall q :: from <= q < r.value ==> fetch(i, q).None?
    ensures r.None? ==> forall q :: from <= q <= MaxRetries ==> fetch(i, q).None?
    decreases MaxRetries + 1 - from
  {
    if from > MaxRetries then None
    else if fetch(i, from).Some? then Some(from)
    else FirstRound(i, from + 1, fetch)
  }

  lemma {:induction false} FirstRoundIs(i: nat, from: nat, r: nat, fetch: Fetcher)
    requires from <= r <= MaxRetries && fetch(i, r).Some?
    requires forall q :: from <= q < r ==> fetch(i, q).None?
    ensures FirstRound(i, from, fetch) == Some(r)
    decreases r - from
  {
    if from < r {
      FirstRoundIs(i, from + 1, r, fetch);
    }
  }

  /** Every stub of `order` is a stub of the listing with a successful fetch. */
  predicate Fetchable(stubs: seq<Stub>, order: seq<nat>, fetch: Fetcher) {
    forall k :: 0 <= k < |order| ==> order[k] < |stubs| && FirstRound(order[k], 0, fetch).Some?
  }

  /** The events the stubs of `order` yield: each merged with the details of its first successful fetch. */
  function Firsts(stubs: seq<Stub>, order: seq<nat>, fetch: Fetcher): (r: seq<ScrapedEvent>)
    requires Fetchable(stubs, order, fetch)
  {
    if order == [] then []
    else
      var i := order[|order| - 1];
      var page := fetch(i, FirstRound(i, 0, fetch).value);
      Firsts(stubs, order[..|order| - 1], fetch)
        + (if page.Some? then [Merge(stubs[i], page.value)] else [])
  }

  lemma FetchableConcat(stubs: seq<Stub>, a: seq<nat>, b: seq<nat>, fetch: Fetcher)
    requires Fetchable(stubs, a, fetch) && Fetchable(stubs, b, fetch)
    ensures Fetchable(stubs, a + b, fetch)
  {
    forall k | 0 <= k < |a + b| ensures (a + b)[k] < |stubs| && FirstRound((a + b)[k], 0, fetch).Some? {
      if k >= |a| {
        assert (a + b)[k] == b[k - |a|];
      }
    }
  }

  lemma {:induction false} FirstsConcat(stubs: seq<Stub>, a: seq<nat>, b: seq<nat>, fetch: Fetcher)
    requires Fetchable(stubs, a, fetch) && Fetchable(stubs, b, fetch)
    ensures Fetchable(stubs, a + b, fetch)
    ensures Firsts(stubs, a + b, fetch) == Firsts(stubs, a, fetch) + Firsts(stubs, b, fetch)
    decreases |b|
  {
    FetchableConcat(stubs, a, b, fetch);
    if b == [] {
      assert a + b == a;
    } else {
      assert (a + b)[..|a + b| - 1] == a + b[..|b| - 1];
      FirstsConcat(stubs, a, b[..|b| - 1], fetch);
    }
  }

  /** In round `r`, every stub that succeeds succeeds for the first time, so its details are those of its first success. */
  lemma {:induction false} WonIsFirsts(stubs: seq<Stub>, pending: seq<nat>, r: nat, fetch: Fetcher)
    requires InRange(pending, |stubs|) && r <= MaxRetries
    requires forall k, q :: 0 <= k < |pending| && 0 <= q < r ==> fetch(pending[k], q).None?
    ensures Fetchable(stubs, Winners(pending, r, fetch), fetch)
    ensures Won(stubs, pending, r, fetch) == Firsts(stubs, Winners(pending, r, fetch), fetch)
  {
    if pending != [] {
      var i := pending[|pending| - 1];
      var init := pending[..|pending| - 1];
      assert InRange(init, |stubs|) by {
        forall k | 0 <= k < |init| ensures init[k] < |stubs| { assert init[k] == pending[k]; }
      }
      forall k, q | 0 <= k < |init| && 0 <= q < r ensures fetch(init[k], q).None? {
        assert init[k] == pending[k];
      }
      WonIsFirsts(stubs, init, r, fetch);
      var w := Winners(init, r, fetch);
      var rest := Won(stubs, init, r, fetch);
      if fetch(i, r).Some? {
        forall q | 0 <= q < r ensures fetch(i, q).None? {
          assert fetch(pending[|pending| - 1], q).None?;
        }
        FirstRoundIs(i, 0, r, fetch);
        assert Fetchable(stubs, [i], fetch);
        FetchableConcat(stubs, w, [i], fetch);
        assert Winners(pending, r, fetch) == w + [i];
        assert (w + [i])[..|w|] == w;
        assert Won(stubs, pending, r, fetch) == rest + [Merge(stubs[i], fetch(i, r).value)];
      } else {
        assert Winners(pending, r, fetch) == w;
        assert Won(stubs, pending, r, fetch) == rest;
      }
    }
  }

  /** The stubs that yield an event, in the order the result lists them. */
  function SuccessOrder(n: nat, fetch: Fetcher): seq<nat> {
    Winners(Pending(n, 0, fetch), 0, fetch) + Winners(Pending(n, 1, fetch), 1, fetch)
      + Winners(Pending(n, 2, fetch), 2, fetch) + Winners(Pending(n, 3, fetch), 3, fetch)
  }

  predicate NoDuplicates(s: seq<nat>) {
    forall a, b :: 0 <= a < b < |s| ==> s[a] != s[b]
  }

  lemma NoDuplicatesConcat(a: seq<nat>, b: seq<nat>)
    requires NoDuplicates(a) && NoDuplicates(b)
    requires forall i :: i in a ==> i !in b
    ensures NoDuplicates(a + b)
  {
    forall x, y | 0 <= x < y < |a + b| ensures (a + b)[x] != (a + b)[y] {
      if x < |a| && y >= |a| {
        assert (a + b)[x] in a && (a + b)[y] == b[y - |a|];
      }
    }
  }

  lemma SuccessOrderMembers(n: nat, fetch: Fetcher, i: nat)
    ensures i in SuccessOrder(n, fetch) <==> i < n && FirstRound(i, 0, fetch).Some?
  {
    var p0, p1, p2, p3 := Pending(n, 0, fetch), Pending(n, 1, fetch), Pending(n, 2, fetch), Pending(n, 3, fetch);
    var w0, w1, w2, w3 := Winners(p0, 0, fetch), Winners(p1, 1, fetch), Winners(p2, 2, fetch), Winners(p3, 3, fetch);
    assert SuccessOrder(n, fetch) == w0 + w1 + w2 + w3;
    assert i in SuccessOrder(n, fetch) <==> i in w0 || i in w1 || i in w2 || i in w3;
    PendingInRounds(n, fetch, i);
    SiftMembers(p0, 0, fetch, true, i);
    SiftMembers(p1, 1, fetch, true, i);
    SiftMembers(p2, 2, fetch, true, i);
    SiftMembers(p3, 3, fetch, true, i);
    var f := FirstRound(i, 0, fetch);
    assert f.Some? <==> fetch(i, 0).Some? || fetch(i, 1).Some? || fetch(i, 2).Some? || fetch(i, 3).Some? by {
      if f.Some? {
        assert f.value == 0 || f.value == 1 || f.value == 2 || f.value == 3;
      }
    }
  }

  lemma SuccessOrderDistinct(n: nat, fetch: Fetcher)
    ensures NoDuplicates(SuccessOrder(n, fetch))
  {
    var p0, p1, p2, p3 := Pending(n, 0, fetch), Pending(n, 1, fetch), Pending(n, 2, fetch), Pending(n, 3, fetch);
    var w0, w1, w2, w3 := Winners(p0, 0, fetch), Winners(p1, 1, fetch), Winners(p2, 2, fetch), Winners(p3, 3, fetch);
    PendingIncreasing(n, 0, fetch);
    PendingIncreasing(n, 1, fetch);
    PendingIncreasing(n, 2, fetch);
    PendingIncreasing(n, 3, fetch);
    SiftIncreasing(p0, 0, fetch, true);
    SiftIncreasing(p1, 1, fetch, true);
    SiftIncreasing(p2, 2, fetch, true);
    SiftIncreasing(p3, 3, fetch, true);
    forall i
      ensures (i in w0 ==> fetch(i, 0).Some?) && (i in w1 ==> fetch(i, 0).None? && fetch(i, 1).Some?)
      ensures i in w2 ==> fetch(i, 0).None? && fetch(i, 1).None? && fetch(i, 2).Some?
      ensures i in w3 ==> fetch(i, 0).None? && fetch(i, 1).None? && fetch(i, 2).None?
    {
      PendingInRounds(n, fetch, i);
      SiftMembers(p0, 0, fetch, true, i);
      SiftMembers(p1, 1, fetch, true, i);
      SiftMembers(p2, 2, fetch, true, i);
      SiftMembers(p3, 3, fetch, true, i);
    }
    NoDuplicatesConcat(w0, w1);
    NoDuplicatesConcat(w0 + w1, w2);
    NoDuplicatesConcat(w0 + w1 + w2, w3);
  }

  /** Every stub taking part in round `r` failed in all earlier rounds. */
  lemma PendingFailedBefore(n: nat, r: nat, fetch: Fetcher)
    ensures forall k, q :: 0 <= k < |Pending(n, r, fetch)| && 0 <= q < r ==> fetch(Pending(n, r, fetch)[k], q).None?
  {
    var p := Pending(n, r, fetch);
    forall k | 0 <= k < |p| ensures forall q :: 0 <= q < r ==> fetch(p[k], q).None? {
      PendingMembers(n, r, fetch, p[k]);
    }
  }

  /** The events of the four rounds are the first-success events of the success order. */
  lemma WonAreFirsts(stubs: seq<Stub>, fetch: Fetcher)
    ensures var n := |stubs|;
      && Fetchable(stubs, SuccessOrder(n, fetch), fetch)
      && Won(stubs, Pending(n, 0, fetch), 0, fetch) + Won(stubs, Pending(n, 1, fetch), 1, fetch)
        + Won(stubs, Pending(n, 2, fetch), 2, fetch) + Won(stubs, Pending(n, 3, fetch), 3, fetch)
        == Firsts(stubs, SuccessOrder(n, fetch), fetch)
  {
    var n := |stubs|;
    var p0, p1, p2, p3 := Pending(n, 0, fetch), Pending(n, 1, fetch), Pending(n, 2, fetch), Pending(n, 3, fetch);
    PendingFailedBefore(n, 0, fetch);
    PendingFailedBefore(n, 1, fetch);
    PendingFailedBefore(n, 2, fetch);
    PendingFailedBefore(n, 3, fetch);
    WonIsFirsts(stubs, p0, 0, fetch);
    WonIsFirsts(stubs, p1, 1, fetch);
    WonIsFirsts(stubs, p2, 2, fetch);
    WonIsFirsts(stubs, p3, 3, fetch);
    var w0, w1, w2, w3 := Winners(p0, 0, fetch), Winners(p1, 1, fetch), Winners(p2, 2, fetch), Winners(p3, 3, fetch);
    FirstsConcat(stubs, w0, w1, fetch);
    FirstsConcat(stubs, w0 + w1, w2, fetch);
    FirstsConcat(stubs, w0 + w1 + w2, w3, fetch);
  }

  /**
   * Per stub: the stubs that yield an event are exactly those some round
   * (initial or one of the three resubmissions) fetches successfully, that
   * is, those with a `FirstRound`; each yields one event, merged with the
   * details of its first successful fetch; a stub still failing after the
   * last resubmission is dropped.
   */
  lemma ParseEventsPerStub(items: seq<ListingItem>, fetch: Fetcher)
    ensures var stubs := Stubs(items);
      var order := SuccessOrder(|stubs|, fetch);
      && NoDuplicates(order)
      && (forall i: nat :: i in order <==> i < |stubs| && FirstRound(i, 0, fetch).Some?)
      && Fetchable(stubs, order, fetch)
      && ParseEvents(items, fetch) == WithShowtimes(Firsts(stubs, order, fetch))
  {
    var stubs := Stubs(items);
    var n := |stubs|;
    ParseEventsByRounds(items, fetch);
    SuccessOrderDistinct(n, fetch);
    forall i: nat ensures i in SuccessOrder(n, fetch) <==> i < n && FirstRound(i, 0, fetch).Some? {
      SuccessOrderMembers(n, fetch, i);
    }
    WonAreFirsts(stubs, fetch);
  }

  /** A stub whose first three fetches fail and whose last resubmission succeeds still yields its event. */
  lemma LastRetryStillCounts(items: seq<ListingItem>, fetch: Fetcher, i: nat)
    requires i < |Stubs(items)|
    requires fetch(i, 0).None? && fetch(i, 1).None? && fetch(i, 2).None? && fetch(i, 3).Some?
    ensures i in SuccessOrder(|Stubs(items)|, fetch)
    ensures FirstRound(i, 0, fetch) == Some(3)
  {
    SuccessOrderMembers(|Stubs(items)|, fetch, i);
    FirstRoundIs(i, 0, 3, fetch);
  }

  // ------------------------------------------------------------ how often a stub is requested

  /** The rounds in which stub `i` is requested, in log order. */
  function RoundsOf(log: seq<(nat, nat)>, i: nat): seq<nat> {
    if log == [] then []
    else
      var e := log[|log| - 1];
      RoundsOf(log[..|log| - 1], i) + (if e.0 == i then [e.1] else [])
  }

  lemma {:induction false} RoundsOfConcat(a: seq<(nat, nat)>, b: seq<(nat, nat)>, i: nat)
    ensures RoundsOf(a + b, i) == RoundsOf(a, i) + RoundsOf(b, i)
    decreases |b|
  {
    if b == [] {
      assert a + b == a;
    } else {
      assert (a + b)[..|a + b| - 1] == a + b[..|b| - 1];
      RoundsOfConcat(a, b[..|b| - 1], i);
    }
  }

  lemma IncreasingPrefix(s: seq<nat>)
    requires Increasing(s) && s != []
    ensures Increasing(s[..|s| - 1])
    ensures forall k :: 0 <= k < |s| - 1 ==> s[k] < s[|s| - 1]
  {
    var init := s[..|s| - 1];
    forall a, b | 0 <= a < b < |init| ensures init[a] < init[b] {
      assert init[a] == s[a] && init[b] == s[b];
    }
  }

  lemma {:induction false} RoundsOfTag(pending: seq<nat>, r: nat, i: nat)
    requires Increasing(pending)
    ensures RoundsOf(Tag(pending, r), i) == if i in pending then [r] else []
  {
    if pending != [] {
      var init := pending[..|pending| - 1];
      var x := pending[|pending| - 1];
      var t := Tag(pending, r);
      assert t[..|t| - 1] == Tag(init, r);
      assert RoundsOf(t, i) == RoundsOf(Tag(init, r), i) + (if x == i then [r] else []);
      IncreasingPrefix(pending);
      RoundsOfTag(init, r, i);
      assert i in pending <==> i in init || i == x by {
        assert pending == init + [x];
      }
      if x == i {
        assert i !in init by {
          forall k | 0 <= k < |init| ensures init[k] != i {
            assert init[k] == pending[k];
          }
        }
      }
    }
  }

  /** The requests for one stub: round `from`, and the next round only after a failure, up to the last resubmission. */
  function Attempts(i: nat, from: nat, fetch: Fetcher): (r: seq<nat>)
    ensures from <= MaxRetries + 1 ==> |r| <= MaxRetries + 1 - from
    decreases MaxRetries + 1 - from
  {
    if from > MaxRetries then []
    else [from] + (if fetch(i, from).None? then Attempts(i, from + 1, fetch) else [])
  }

  /** `[r]` when stub `i` takes part in round `r`, else `[]`. */
  function Mark(pending: seq<nat>, r: nat, i: nat): seq<nat> {
    if i in pending then [r] else []
  }

  lemma RoundsOfAll(n: nat, fetch: Fetcher, i: nat)
    ensures RoundsOf(AllRequests(n, fetch), i)
      == Mark(Pending(n, 0, fetch), 0, i) + Mark(Pending(n, 1, fetch), 1, i)
        + Mark(Pending(n, 2, fetch), 2, i) + Mark(Pending(n, 3, fetch), 3, i)
  {
    var p0, p1, p2, p3 := Pending(n, 0, fetch), Pending(n, 1, fetch), Pending(n, 2, fetch), Pending(n, 3, fetch);
    var t0, t1, t2, t3 := Tag(p0, 0), Tag(p1, 1), Tag(p2, 2), Tag(p3, 3);
    RequestsByRounds(n, fetch);
    PendingIncreasing(n, 0, fetch);
    PendingIncreasing(n, 1, fetch);
    PendingIncreasing(n, 2, fetch);
    PendingIncreasing(n, 3, fetch);
    RoundsOfConcat(t0 + t1 + t2, t3, i);
    RoundsOfConcat(t0 + t1, t2, i);
    RoundsOfConcat(t0, t1, i);
    RoundsOfTag(p0, 0, i);
    RoundsOfTag(p1, 1, i);
    RoundsOfTag(p2, 2, i);
    RoundsOfTag(p3, 3, i);
  }

  /** The requests for one stub stop at its first successful round, or after the last resubmission. */
  lemma AttemptsUntilSuccess(i: nat, fetch: Fetcher)
    ensures Attempts(i, 0, fetch) == if fetch(i, 0).Some? then [0] else if fetch(i, 1).Some? then [0, 1]
      else if fetch(i, 2).Some? then [0, 1, 2] else [0, 1, 2, 3]
  {
    assert Attempts(i, 4, fetch) == [];
    assert Attempts(i, 3, fetch) == [3];
  }

  /** `PendingMembers` for the four rounds, spelled out. */
  lemma PendingInRounds(n: nat, fetch: Fetcher, i: nat)
    ensures i in Pending(n, 0, fetch) <==> i < n
    ensures i in Pending(n, 1, fetch) <==> i < n && fetch(i, 0).None?
    ensures i in Pending(n, 2, fetch) <==> i < n && fetch(i, 0).None? && fetch(i, 1).None?
    ensures i in Pending(n, 3, fetch) <==> i < n && fetch(i, 0).None? && fetch(i, 1).None? && fetch(i, 2).None?
  {
    IndicesMembers(n, i);
    PendingStep(n, 0, fetch, i);
    PendingStep(n, 1, fetch, i);
    PendingStep(n, 2, fetch, i);
  }

  lemma MarksAreAttempts(n: nat, fetch: Fetcher, i: nat)
    ensures var p0, p1, p2, p3 := Pending(n, 0, fetch), Pending(n, 1, fetch), Pending(n, 2, fetch), Pending(n, 3, fetch);
      Mark(p0, 0, i) + Mark(p1, 1, i) + Mark(p2, 2, i) + Mark(p3, 3, i) == if i < n then Attempts(i, 0, fetch) else []
  {
    var p0, p1, p2, p3 := Pending(n, 0, fetch), Pending(n, 1, fetch), Pending(n, 2, fetch), Pending(n, 3, fetch);
    PendingInRounds(n, fetch, i);
    AttemptsUntilSuccess(i, fetch);
    if i >= n {
      assert Mark(p0, 0, i) == Mark(p1, 1, i) == Mark(p2, 2, i) == Mark(p3, 3, i) == [];
    } else if fetch(i, 0).Some? {
      assert Mark(p0, 0, i) == [0] && Mark(p1, 1, i) == Mark(p2, 2, i) == Mark(p3, 3, i) == [];
    } else if fetch(i, 1).Some? {
      assert Mark(p0, 0, i) == [0] && Mark(p1, 1, i) == [1] && Mark(p2, 2, i) == Mark(p3, 3, i) == [];
    } else if fetch(i, 2).Some? {
      assert Mark(p0, 0, i) == [0] && Mark(p1, 1, i) == [1] && Mark(p2, 2, i) == [2] && Mark(p3, 3, i) == [];
    } else {
      assert Mark(p0, 0, i) == [0] && Mark(p1, 1, i) == [1] && Mark(p2, 2, i) == [2] && Mark(p3, 3, i) == [3];
    }
  }

  /**
   * Each listed stub is requested in round 0 and, after each failure, once
   * more, up to the last resubmission: at most 1 + `MaxRetries` = 4 requests.
   * Stubs that are not listed are never requested.
   */
  lemma RequestsPerStub(n: nat, fetch: Fetcher, i: nat)
    ensures RoundsOf(AllRequests(n, fetch), i) == if i < n then Attempts(i, 0, fetch) else []
    ensures |RoundsOf(AllRequests(n, fetch), i)| <= 1 + MaxRetries
  {
    RoundsOfAll(n, fetch, i);
    MarksAreAttempts(n, fetch, i);
  }
}
