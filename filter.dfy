/**
 * `FilterAlgorithm`: the events recommended to a user.
 *
 * The candidates are the active events the user has given no feedback on
 * that have a showtime from `now` on, a showtime within seven days, and an
 * interest in common with the user's interests or their direct children.
 * Each is scored, the list is sorted by score, highest first with ties in
 * candidate order, and cut at `limit`.
 *
 * Times are integer seconds and `now` is a parameter. Ids are positions in
 * the event and interest tables. The `(event, interest)` rows of the query
 * in `_get_feedback_interest_ids` are a parameter, `IsJoin` states what they
 * are.
 */
module FilterAlgorithm {
  import opened Wrappers
  import opened EventsService
  import opened EventRepository
  import opened FeedbackRepository

  const Hour: int := 3600
  const Week: int := 7 * 24 * Hour
  /** `filter`'s default `limit`, the one a call without arguments gets. */
  const DefaultLimit: int := 10

  // ------------------------------------------------------------ the user's interests

  /** `interest.children`: the tags directly under interest `p`. */
  function Children(table: seq<Interest>, p: nat): set<nat> {
    set j | 0 <= j < |table| && table[j].parent == Some(p)
  }

  /** The tags directly under any of `direct`. */
  function ChildrenOf(table: seq<Interest>, direct: seq<nat>): set<nat> {
    set j | 0 <= j < |table| && table[j].parent.Some? && table[j].parent.value in direct
  }

  /** What `_get_all_interest_ids` returns. */
  function Expanded(table: seq<Interest>, direct: seq<nat>): set<nat> {
    Elements(direct) + ChildrenOf(table, direct)
  }

  /**
   * `_get_all_interest_ids`: the user's interests and the tags directly
   * under them, one level only.
   */
  method ExpandInterests(table: seq<Interest>, direct: seq<nat>) returns (ids: set<nat>)
    ensures ids == Expanded(table, direct)
    ensures forall x: nat :: x in ids <==> x in direct || (x < |table| && table[x].parent.Some? && table[x].parent.value in direct)
  {
    ids := Elements(direct);
    for k := 0 to |direct|
      invariant ids == Elements(direct) + ChildrenOf(table, direct[..k])
    {
      assert forall p :: p in direct[..k + 1] <==> p in direct[..k] || p == direct[k] by {
        assert direct[..k + 1] == direct[..k] + [direct[k]];
      }
      ids := ids + Children(table, direct[k]);
    }
    assert direct[..|direct|] == direct;
  }

  /** A tag two levels under the user's interests is not among them. */
  lemma NoGrandchildren(table: seq<Interest>, direct: seq<nat>, x: nat, p: nat)
    requires x < |table| && table[x].parent == Some(p) && p < |table|
    requires table[p].parent.Some? && table[p].parent.value in direct
    requires x !in direct && p !in direct
    ensures p in Expanded(table, direct) && x !in Expanded(table, direct)
  {
  }

  // ------------------------------------------------------------ the user's feedback

  /** `_get_seen_event_ids`: the events the user gave any feedback on. */
  function Seen(records: seq<Record>, user: nat): set<nat> {
    set i | 0 <= i < |records| && records[i].user == user :: records[i].event
  }

  /** `liked_event_ids`. */
  function LikedEvents(records: seq<Record>, user: nat): set<nat> {
    set i | 0 <= i < |records| && records[i].user == user && records[i].like :: records[i].event
  }

  /** `disliked_event_ids`. */
  function DislikedEvents(records: seq<Record>, user: nat): set<nat> {
    set i | 0 <= i < |records| && records[i].user == user && !records[i].like :: records[i].event
  }

  /** A row of the `(Event.id, Interest.id)` join. */
  datatype Tagging = Tagging(event: nat, interest: nat)

  /** `rows` are the join of the events in `ids` with their interests, in any order. */
  ghost predicate IsJoin(rows: seq<Tagging>, events: seq<Event>, ids: set<nat>) {
    forall r :: r in rows <==> r.event in ids && r.event < |events| && r.interest in events[r.event].interests
  }

  /** The `liked` and `disliked` interest sets after the rows, as the loop builds them. */
  function Split(rows: seq<Tagging>, likedEvents: set<nat>, dislikedEvents: set<nat>): (set<nat>, set<nat>) {
    if rows == [] then ({}, {})
    else
      var p := Split(rows[..|rows| - 1], likedEvents, dislikedEvents);
      var r := rows[|rows| - 1];
      if r.event in likedEvents then (p.0 + {r.interest}, p.1)
      else if r.event in dislikedEvents then (p.0, p.1 + {r.interest})
      else p
  }

  /** `_get_feedback_interest_ids`, from the rows of its join. */
  method FeedbackInterestIds(rows: seq<Tagging>, likedEvents: set<nat>, dislikedEvents: set<nat>)
    returns (liked: set<nat>, disliked: set<nat>)
    ensures (liked, disliked) == Split(rows, likedEvents, dislikedEvents)
  {
    liked, disliked := {}, {};
    for k := 0 to |rows|
      invariant (liked, disliked) == Split(rows[..k], likedEvents, dislikedEvents)
    {
      assert rows[..k + 1][..k] == rows[..k];
      if rows[k].event in likedEvents {
        liked := liked + {rows[k].interest};
      } else if rows[k].event in dislikedEvents {
        disliked := disliked + {rows[k].interest};
      }
    }
    assert rows[..|rows|] == rows;
  }

  /**
   * An interest is liked exactly when a row ties it to a liked event, and
   * disliked exactly when a row ties it to a disliked event that is not also
   * liked.
   */
  lemma {:induction false} SplitMeaning(rows: seq<Tagging>, likedEvents: set<nat>, dislikedEvents: set<nat>, x: nat)
    ensures x in Split(rows, likedEvents, dislikedEvents).0 <==>
      exists k :: 0 <= k < |rows| && rows[k].interest == x && rows[k].event in likedEvents
    ensures x in Split(rows, likedEvents, dislikedEvents).1 <==>
      exists k :: 0 <= k < |rows| && rows[k].interest == x && rows[k].event !in likedEvents && rows[k].event in dislikedEvents
  {
    if rows != [] {
      var init := rows[..|rows| - 1];
      SplitMeaning(init, likedEvents, dislikedEvents, x);
      assert forall k :: 0 <= k < |init| ==> init[k] == rows[k];
      var last := |rows| - 1;
      if exists k :: 0 <= k < |rows| && rows[k].interest == x && rows[k].event in likedEvents {
        var k :| 0 <= k < |rows| && rows[k].interest == x && rows[k].event in likedEvents;
        if k < last {
          assert init[k] == rows[k];
        }
      }
      if exists k :: 0 <= k < |rows| && rows[k].interest == x && rows[k].event !in likedEvents && rows[k].event in dislikedEvents {
        var k :| 0 <= k < |rows| && rows[k].interest == x && rows[k].event !in likedEvents && rows[k].event in dislikedEvents;
        if k < last {
          assert init[k] == rows[k];
        }
      }
    }
  }

  /**
   * On the join of the feedback events: the interests of a liked event are
   * liked, those of an event only disliked are disliked, so an interest of
   * both a liked and a disliked event is in both sets.
   */
  lemma FeedbackPartition(events: seq<Event>, records: seq<Record>, user: nat, rows: seq<Tagging>, e: nat, x: nat)
    requires IsJoin(rows, events, LikedEvents(records, user) + DislikedEvents(records, user))
    requires e < |events| && x in events[e].interests
    ensures var s := Split(rows, LikedEvents(records, user), DislikedEvents(records, user));
      && (e in LikedEvents(records, user) ==> x in s.0)
      && (e in DislikedEvents(records, user) && e !in LikedEvents(records, user) ==> x in s.1)
  {
    var liked := LikedEvents(records, user);
    var disliked := DislikedEvents(records, user);
    SplitMeaning(rows, liked, disliked, x);
    if e in liked || e in disliked {
      var r := Tagging(e, x);
      assert r in rows;
      var k :| 0 <= k < |rows| && rows[k] == r;
      assert rows[k].interest == x && rows[k].event == e;
    }
  }

  /** On the join, every liked or disliked interest belongs to a feedback event. */
  lemma SplitFromFeedback(events: seq<Event>, records: seq<Record>, user: nat, rows: seq<Tagging>, x: nat)
    requires IsJoin(rows, events, LikedEvents(records, user) + DislikedEvents(records, user))
    ensures var s := Split(rows, LikedEvents(records, user), DislikedEvents(records, user));
      x in s.0 + s.1 ==> exists e :: e in Seen(records, user) && e < |events| && x in events[e].interests
  {
    var liked := LikedEvents(records, user);
    var disliked := DislikedEvents(records, user);
    SplitMeaning(rows, liked, disliked, x);
    var s := Split(rows, liked, disliked);
    if x in s.0 + s.1 {
      var k :| 0 <= k < |rows| && rows[k].interest == x && (rows[k].event in liked || rows[k].event in disliked);
      assert rows[k] in rows;
      var e := rows[k].event;
      var i :| 0 <= i < |records| && records[i].user == user && records[i].event == e;
      assert e in Seen(records, user);
    }
  }

  // ------------------------------------------------------------ candidates

  /** The conditions of `_get_candidate_events`; the two showtime conditions may hold by different showtimes. */
  predicate IsCandidate(e: Event, id: nat, interestIds: set<nat>, seen: set<nat>, now: int) {
    && e.isActive
    && id !in seen
    && (exists s :: s in e.slots && s.date >= now)
    && (exists s :: s in e.slots && s.date <= now + Week)
    && e.interests * interestIds != {}
  }

  /** `_get_candidate_events`: the ids of the candidates, each once, in table order. */
  function Candidates(events: seq<Event>, interestIds: set<nat>, seen: set<nat>, now: int): (r: seq<nat>)
    ensures forall k :: 0 <= k < |r| ==> r[k] < |events| && IsCandidate(events[r[k]], r[k], interestIds, seen, now)
    ensures forall a, b :: 0 <= a < b < |r| ==> r[a] < r[b]
    ensures forall i :: 0 <= i < |events| && IsCandidate(events[i], i, interestIds, seen, now) ==> i in r
  {
    if events == [] then []
    else
      var n := |events| - 1;
      var r := Candidates(events[..n], interestIds, seen, now);
      assert forall k :: 0 <= k < |r| ==> events[..n][r[k]] == events[r[k]];
      r + (if IsCandidate(events[n], n, interestIds, seen, now) then [n] else [])
  }

  /** An empty interest set yields no candidates. */
  lemma {:induction false} NoInterestsNoCandidates(events: seq<Event>, seen: set<nat>, now: int)
    ensures Candidates(events, {}, seen, now) == []
  {
    if events != [] {
      var n := |events| - 1;
      NoInterestsNoCandidates(events[..n], seen, now);
      assert events[n].interests * {} == {};
    }
  }

  // ------------------------------------------------------------ scores

  /** `min(d.date for d in event.date_locations if d.date >= now)`, or `None` when there is none. */
  function Soonest(slots: seq<Slot>, now: int): (r: Option<int>)
    ensures r.None? <==> forall i :: 0 <= i < |slots| ==> slots[i].date < now
    ensures r.Some? ==> r.value >= now && exists i :: 0 <= i < |slots| && slots[i].date == r.value
    ensures r.Some? ==> forall i :: 0 <= i < |slots| && slots[i].date >= now ==> r.value <= slots[i].date
  {
    if slots == [] then None
    else
      var n := |slots| - 1;
      var p := Soonest(slots[..n], now);
      assert forall i :: 0 <= i < n ==> slots[..n][i] == slots[i];
      var d := slots[n].date;
      if d < now then p
      else if p.None? || d < p.value then Some(d)
      else p
  }

  /** The bonus for the soonest showtime `seconds` from now: the hour thresholds of `_score_events`. */
  function TemporalBonus(seconds: int): (b: int)
    ensures -2 <= b <= 3
    ensures b == -2 <==> seconds < Hour
    ensures b == 3 <==> Hour <= seconds <= 3 * Hour
    ensures b == 1 <==> 3 * Hour < seconds <= 24 * Hour
    ensures b == 0 <==> seconds > 24 * Hour
  {
    if seconds < Hour then -2
    else if seconds <= 3 * Hour then 3
    else if seconds <= 24 * Hour then 1
    else 0
  }

  /** The score of one event: 3 per shared interest, the temporal bonus, +2 for a liked and -3 for a disliked interest. */
  function Score(e: Event, user: set<nat>, liked: set<nat>, disliked: set<nat>, now: int): int {
    3 * |e.interests * user|
    + (match Soonest(e.slots, now) case Some(d) => TemporalBonus(d - now) case None => 0)
    + (if e.interests * liked != {} then 2 else 0)
    - (if e.interests * disliked != {} then 3 else 0)
  }

  /** The score is within 5 of three times the number of shared interests. */
  lemma ScoreBounds(e: Event, user: set<nat>, liked: set<nat>, disliked: set<nat>, now: int)
    ensures 3 * |e.interests * user| - 5 <= Score(e, user, liked, disliked, now) <= 3 * |e.interests * user| + 5
  {
  }

  /** A scored candidate: `{"event": event, "score": score}`. */
  datatype Scored = Scored(event: nat, score: int)

  /** One entry per candidate, in candidate order. */
  function ScoreAll(events: seq<Event>, candidates: seq<nat>, user: set<nat>, liked: set<nat>, disliked: set<nat>, now: int): seq<Scored>
    requires forall k :: 0 <= k < |candidates| ==> candidates[k] < |events|
  {
    seq(|candidates|, k requires 0 <= k < |candidates| => Scored(candidates[k], Score(events[candidates[k]], user, liked, disliked, now)))
  }

  /** `_score_events`: each candidate's score, accumulated term by term, in candidate order. */
  method ScoreEvents(events: seq<Event>, candidates: seq<nat>, user: set<nat>, liked: set<nat>, disliked: set<nat>, now: int)
    returns (scored: seq<Scored>)
    requires forall k :: 0 <= k < |candidates| ==> candidates[k] < |events|
    ensures |scored| == |candidates|
    ensures forall k :: 0 <= k < |candidates| ==>
      scored[k] == Scored(candidates[k], Score(events[candidates[k]], user, liked, disliked, now))
  {
    scored := [];
    for k := 0 to |candidates|
      invariant |scored| == k
      invariant forall j :: 0 <= j < k ==> scored[j] == Scored(candidates[j], Score(events[candidates[j]], user, liked, disliked, now))
    {
      var event := events[candidates[k]];
      var score := 0;
      var matchCount := |event.interests * user|;
      score := score + matchCount * 3;
      var closest := Soonest(event.slots, now);
      if closest.Some? {
        var delta := closest.value - now;
        if delta < Hour {
          score := score - 2;
        } else if Hour <= delta <= 3 * Hour {
          score := score + 3;
        } else if 3 * Hour < delta <= 24 * Hour {
          score := score + 1;
        }
      }
      if event.interests * liked != {} {
        score := score + 2;
      }
      if event.interests * disliked != {} {
        score := score - 3;
      }
      scored := scored + [Scored(candidates[k], score)];
    }
  }

  // ------------------------------------------------------------ the ranking

  /** Scores never increase along `s`. */
  predicate SortedDesc(s: seq<Scored>) {
    forall i, j :: 0 <= i < j < |s| ==> s[i].score >= s[j].score
  }

  /** `x` placed before the first entry that does not score higher: ties keep `x` first. */
  function Insert(x: Scored, s: seq<Scored>): (r: seq<Scored>)
    ensures |r| == |s| + 1 && multiset(r) == multiset(s) + multiset{x}
    ensures r[0] == x || (s != [] && r[0] == s[0])
  {
    if s == [] then [x]
    else
      assert s == [s[0]] + s[1..];
      if s[0].score > x.score then [s[0]] + Insert(x, s[1..]) else [x] + s
  }

  /** `sorted(scored, key=score, reverse=True)`: Python's stable sort, highest score first. */
  function SortByScore(s: seq<Scored>): (r: seq<Scored>)
    ensures multiset(r) == multiset(s)
  {
    if s == [] then []
    else
      assert s == [s[0]] + s[1..];
      Insert(s[0], SortByScore(s[1..]))
  }

  /** The entries of `s` with score `v`, in order. */
  function WithScore(s: seq<Scored>, v: int): seq<Scored> {
    if s == [] then [] else (if s[0].score == v then [s[0]] else []) + WithScore(s[1..], v)
  }

  lemma {:induction false} InsertSorted(x: Scored, s: seq<Scored>)
    requires SortedDesc(s)
    ensures SortedDesc(Insert(x, s))
  {
    if s != [] && s[0].score > x.score {
      InsertSorted(x, s[1..]);
      var t := Insert(x, s[1..]);
      var r := [s[0]] + t;
      forall i, j | 0 <= i < j < |r|
        ensures r[i].score >= r[j].score
      {
        if i == 0 {
          assert r[j] in multiset(t);
          assert r[j] == x || r[j] in multiset(s[1..]);
          if r[j] != x {
            var m :| 0 <= m < |s[1..]| && s[1..][m] == r[j];
            assert s[1 + m] == r[j];
          }
        } else {
          assert r[i] == t[i - 1] && r[j] == t[j - 1];
        }
      }
    }
  }

  /** The ranking is ordered by score. */
  lemma {:induction false} SortSorted(s: seq<Scored>)
    ensures SortedDesc(SortByScore(s))
  {
    if s != [] {
      SortSorted(s[1..]);
      InsertSorted(s[0], SortByScore(s[1..]));
    }
  }

  lemma SortedTail(s: seq<Scored>)
    requires SortedDesc(s) && s != []
    ensures SortedDesc(s[1..])
  {
    forall i, j | 0 <= i < j < |s[1..]|
      ensures s[1..][i].score >= s[1..][j].score
    {
      assert s[1..][i] == s[i + 1] && s[1..][j] == s[j + 1];
    }
  }

  /** `WithScore` of a sequence with a known first entry. */
  lemma WithScoreCons(y: Scored, t: seq<Scored>, v: int)
    ensures WithScore([y] + t, v) == (if y.score == v then [y] else []) + WithScore(t, v)
  {
    assert ([y] + t)[1..] == t;
  }

  /** Entries of different scores commute under `WithScore`. */
  lemma SwapHeads(y: Scored, x: Scored, t: seq<Scored>, w: seq<Scored>, v: int)
    requires y.score > x.score
    requires WithScore(t, v) == (if x.score == v then [x] else []) + w
    ensures WithScore([y] + t, v) == (if x.score == v then [x] else []) + ((if y.score == v then [y] else []) + w)
  {
    WithScoreCons(y, t, v);
    if y.score == v {
      assert [y] + ([] + w) == [] + ([y] + w);
    } else {
      assert [] + ((if x.score == v then [x] else []) + w) == (if x.score == v then [x] else []) + ([] + w);
    }
  }

  /** One step of `InsertStable`: `x` moves past a higher-scored head. */
  lemma InsertPast(x: Scored, s: seq<Scored>, v: int)
    requires s != [] && s[0].score > x.score
    requires WithScore(Insert(x, s[1..]), v) == (if x.score == v then [x] else []) + WithScore(s[1..], v)
    ensures WithScore(Insert(x, s), v) == (if x.score == v then [x] else []) + WithScore(s, v)
  {
    assert Insert(x, s) == [s[0]] + Insert(x, s[1..]);
    SwapHeads(s[0], x, Insert(x, s[1..]), WithScore(s[1..], v), v);
    assert s == [s[0]] + s[1..];
    WithScoreCons(s[0], s[1..], v);
  }

  lemma {:induction false} InsertStable(x: Scored, s: seq<Scored>, v: int)
    requires SortedDesc(s)
    ensures WithScore(Insert(x, s), v) == (if x.score == v then [x] else []) + WithScore(s, v)
  {
    if s == [] {
      WithScoreCons(x, [], v);
    } else if s[0].score > x.score {
      SortedTail(s);
      InsertStable(x, s[1..], v);
      InsertPast(x, s, v);
    } else {
      assert Insert(x, s) == [x] + s;
      WithScoreCons(x, s, v);
    }
  }

  /** Among equal scores the ranking keeps the candidates' order: the sort is stable. */
  lemma {:induction false} SortStable(s: seq<Scored>, v: int)
    ensures WithScore(SortByScore(s), v) == WithScore(s, v)
  {
    if s != [] {
      SortStable(s[1..], v);
      SortSorted(s[1..]);
      InsertStable(s[0], SortByScore(s[1..]), v);
    }
  }

  /** `s[:limit]`, negative `limit` counting from the end as Python slicing does. */
  function Take<T>(s: seq<T>, limit: int): (r: seq<T>)
    ensures limit >= 0 ==> |r| == if limit < |s| then limit else |s|
    ensures |r| <= |s| && r == s[..|r|]
  {
    if limit >= 0 then s[..if limit < |s| then limit else |s|]
    else s[..if |s| + limit > 0 then |s| + limit else 0]
  }

  /** What an entry of the ranking is: an entry of its input. */
  lemma SortedFrom(s: seq<Scored>, k: nat)
    requires k < |SortByScore(s)|
    ensures |SortByScore(s)| == |s| && SortByScore(s)[k] in s
  {
    assert SortByScore(s)[k] in multiset(SortByScore(s));
  }

  /** `WithScore` of a prefix is a prefix of `WithScore`. */
  lemma {:induction false} WithScorePrefix(s: seq<Scored>, n: nat, v: int)
    requires n <= |s|
    ensures WithScore(s[..n], v) <= WithScore(s, v)
  {
    if n > 0 {
      WithScorePrefix(s[1..], n - 1, v);
      assert s[..n] == [s[0]] + s[1..][..n - 1];
      WithScoreCons(s[0], s[1..][..n - 1], v);
      assert s == [s[0]] + s[1..];
      WithScoreCons(s[0], s[1..], v);
    }
  }

  /** The ranking cut at `limit` has Python's slice length. */
  lemma TopLength(s: seq<Scored>, limit: int)
    ensures var top := Take(SortByScore(s), limit);
      && (limit >= 0 ==> |top| == if limit < |s| then limit else |s|)
      && (limit < 0 ==> |top| == if |s| + limit > 0 then |s| + limit else 0)
  {
    var sorted := SortByScore(s);
    assert |sorted| == |multiset(sorted)| == |s|;
  }

  /** Every entry of the cut ranking is an entry of `s`. */
  lemma TopMembers(s: seq<Scored>, limit: int)
    ensures var top := Take(SortByScore(s), limit); forall k :: 0 <= k < |top| ==> top[k] in s
  {
    var top := Take(SortByScore(s), limit);
    forall k | 0 <= k < |top|
      ensures top[k] in s
    {
      SortedFrom(s, k);
    }
  }

  /** The cut ranking is ordered by score. */
  lemma TopSorted(s: seq<Scored>, limit: int)
    ensures SortedDesc(Take(SortByScore(s), limit))
  {
    SortSorted(s);
  }

  /** Among entries of score `v`, the cut ranking holds the first ones of `s`, in `s`'s order. */
  lemma TopStable(s: seq<Scored>, limit: int, v: int)
    ensures WithScore(Take(SortByScore(s), limit), v) <= WithScore(s, v)
  {
    var sorted := SortByScore(s);
    WithScorePrefix(sorted, |Take(sorted, limit)|, v);
    SortStable(s, v);
  }

  /** An entry of `s` left out of the cut scores no higher than any entry kept. */
  lemma TopBest(s: seq<Scored>, limit: int, y: Scored, k: nat)
    requires y in s && y !in Take(SortByScore(s), limit) && k < |Take(SortByScore(s), limit)|
    ensures Take(SortByScore(s), limit)[k].score >= y.score
  {
    var sorted := SortByScore(s);
    var top := Take(sorted, limit);
    SortSorted(s);
    assert y in multiset(sorted);
    var j :| 0 <= j < |sorted| && sorted[j] == y;
    assert forall i :: 0 <= i < |top| ==> sorted[i] == top[i];
    assert j >= |top|;
    assert top[k] == sorted[k];
  }

  /** `[e["event"] for e in top_n]`. */
  function Ids(s: seq<Scored>): (r: seq<nat>)
    ensures |r| == |s| && forall k :: 0 <= k < |s| ==> r[k] == s[k].event
  {
    seq(|s|, k requires 0 <= k < |s| => s[k].event)
  }

  /** The interests, candidates and scores `filter` works with. */
  function Ranked(events: seq<Event>, table: seq<Interest>, direct: seq<nat>, records: seq<Record>, user: nat,
                  rows: seq<Tagging>, now: int): seq<Scored>
  {
    var interestIds := Expanded(table, direct);
    var fb := Split(rows, LikedEvents(records, user), DislikedEvents(records, user));
    var candidates := Candidates(events, interestIds, Seen(records, user), now);
    ScoreAll(events, candidates, interestIds, fb.0, fb.1, now)
  }

  /** The scored candidates `filter` keeps: the ranking cut at `limit`. */
  function Top(events: seq<Event>, table: seq<Interest>, direct: seq<nat>, records: seq<Record>, user: nat,
               rows: seq<Tagging>, now: int, limit: int): seq<Scored>
  {
    Take(SortByScore(Ranked(events, table, direct, records, user, rows, now)), limit)
  }

  /** What `filter` returns: the ids of the `limit` best-scored candidates. */
  function Recommended(events: seq<Event>, table: seq<Interest>, direct: seq<nat>, records: seq<Record>, user: nat,
                       rows: seq<Tagging>, now: int, limit: int): seq<nat>
  {
    Ids(Top(events, table, direct, records, user, rows, now, limit))
  }

  /** `filter`. */
  method Filter(events: seq<Event>, table: seq<Interest>, direct: seq<nat>, records: seq<Record>, user: nat,
                rows: seq<Tagging>, now: int, limit: int) returns (recommended: seq<nat>)
    ensures recommended == Recommended(events, table, direct, records, user, rows, now, limit)
  {
    var seen := Seen(records, user);
    var interestIds := ExpandInterests(table, direct);
    var liked, disliked := FeedbackInterestIds(rows, LikedEvents(records, user), DislikedEvents(records, user));
    var candidates := Candidates(events, interestIds, seen, now);
    var scored := ScoreEvents(events, candidates, interestIds, liked, disliked, now);
    assert scored == Ranked(events, table, direct, records, user, rows, now);
    var topN := Take(SortByScore(scored), limit);
    recommended := Ids(topN);
  }

  // ------------------------------------------------------------ what `filter` promises

  /** An entry of the ranking is a candidate with its score. */
  lemma RankedEntry(events: seq<Event>, table: seq<Interest>, direct: seq<nat>, records: seq<Record>, user: nat,
                    rows: seq<Tagging>, now: int, y: Scored)
    requires y in Ranked(events, table, direct, records, user, rows, now)
    ensures y.event < |events| && IsCandidate(events[y.event], y.event, Expanded(table, direct), Seen(records, user), now)
  {
    var c := Candidates(events, Expanded(table, direct), Seen(records, user), now);
    var ranked := Ranked(events, table, direct, records, user, rows, now);
    var j :| 0 <= j < |ranked| && ranked[j] == y;
    assert y.event == c[j];
  }

  /**
   * `filter` returns `min(limit, #candidates)` ids (so none for `limit = 0`),
   * each a candidate in the table, so never an event the user gave feedback on.
   */
  lemma RecommendedCandidates(events: seq<Event>, table: seq<Interest>, direct: seq<nat>, records: seq<Record>, user: nat,
                              rows: seq<Tagging>, now: int, limit: int)
    ensures var r := Recommended(events, table, direct, records, user, rows, now, limit);
      var n := |Candidates(events, Expanded(table, direct), Seen(records, user), now)|;
      && (limit >= 0 ==> |r| == if limit < n then limit else n)
      && (limit == 0 ==> r == [])
      && forall k :: 0 <= k < |r| ==>
           && r[k] < |events|
           && IsCandidate(events[r[k]], r[k], Expanded(table, direct), Seen(records, user), now)
           && r[k] !in Seen(records, user)
  {
    var ranked := Ranked(events, table, direct, records, user, rows, now);
    var top := Top(events, table, direct, records, user, rows, now, limit);
    TopLength(ranked, limit);
    TopMembers(ranked, limit);
    forall k | 0 <= k < |top|
      ensures top[k].event < |events| && IsCandidate(events[top[k].event], top[k].event, Expanded(table, direct), Seen(records, user), now)
    {
      RankedEntry(events, table, direct, records, user, rows, now, top[k]);
    }
  }

  /** A call with the default limit returns the ten best candidates, or all of them when there are fewer. */
  lemma DefaultLimitRecommended(events: seq<Event>, table: seq<Interest>, direct: seq<nat>, records: seq<Record>, user: nat,
                                rows: seq<Tagging>, now: int)
    ensures var n := |Candidates(events, Expanded(table, direct), Seen(records, user), now)|;
      |Recommended(events, table, direct, records, user, rows, now, DefaultLimit)| == if n < 10 then n else 10
  {
    RecommendedCandidates(events, table, direct, records, user, rows, now, DefaultLimit);
  }

  /** The kept candidates come highest score first, and among equal scores in candidate (table) order. */
  lemma RecommendedOrder(events: seq<Event>, table: seq<Interest>, direct: seq<nat>, records: seq<Record>, user: nat,
                         rows: seq<Tagging>, now: int, limit: int, v: int)
    ensures SortedDesc(Top(events, table, direct, records, user, rows, now, limit))
    ensures WithScore(Top(events, table, direct, records, user, rows, now, limit), v)
      <= WithScore(Ranked(events, table, direct, records, user, rows, now), v)
  {
    var ranked := Ranked(events, table, direct, records, user, rows, now);
    TopSorted(ranked, limit);
    TopStable(ranked, limit, v);
  }

  /** A candidate left out scores no higher than any candidate kept. */
  lemma RecommendedBest(events: seq<Event>, table: seq<Interest>, direct: seq<nat>, records: seq<Record>, user: nat,
                        rows: seq<Tagging>, now: int, limit: int, y: Scored, k: nat)
    requires y in Ranked(events, table, direct, records, user, rows, now)
    requires y !in Top(events, table, direct, records, user, rows, now, limit)
    requires k < |Top(events, table, direct, records, user, rows, now, limit)|
    ensures Top(events, table, direct, records, user, rows, now, limit)[k].score >= y.score
  {
    TopBest(Ranked(events, table, direct, records, user, rows, now), limit, y, k);
  }

  // ------------------------------------------------------------ scenarios

  /** One unfolding of `Candidates`: the last event is considered after the others. */
  lemma CandidatesStep(events: seq<Event>, interestIds: set<nat>, seen: set<nat>, now: int)
    requires events != []
    ensures var n := |events| - 1;
      Candidates(events, interestIds, seen, now)
        == Candidates(events[..n], interestIds, seen, now) + (if IsCandidate(events[n], n, interestIds, seen, now) then [n] else [])
  {
  }

  /** The feedback sets of a single record. */
  lemma FeedbackOfOne(user: nat, event: nat, like: bool)
    ensures Seen([Record(user, event, like)], user) == {event}
    ensures LikedEvents([Record(user, event, like)], user) == if like then {event} else {}
    ensures DislikedEvents([Record(user, event, like)], user) == if like then {} else {event}
  {
    var records := [Record(user, event, like)];
    assert records[0].event == event;
    assert event in Seen(records, user);
  }

  /** The interest sets after a single join row of an event only disliked. */
  lemma SplitOfDisliked(r: Tagging, likedEvents: set<nat>, dislikedEvents: set<nat>)
    requires r.event !in likedEvents && r.event in dislikedEvents
    ensures Split([r], likedEvents, dislikedEvents) == ({}, {r.interest})
  {
    assert [r][..0] == [];
    assert Split([], likedEvents, dislikedEvents) == ({}, {});
    var none: set<nat> := {};
    assert none + {r.interest} == {r.interest};
  }

  /** With no tag under interest `m`, the expanded set of `[m]` is `{m}`. */
  lemma ExpandedSingle(table: seq<Interest>, m: nat)
    requires forall j :: 0 <= j < |table| ==> table[j].parent != Some(m)
    ensures Expanded(table, [m]) == {m}
  {
    assert Elements([m]) == {m};
  }

  /** An active event with interest `m` and one showtime two hours ahead scores 6 and is a candidate. */
  lemma MusicEvent(a: Event, m: nat, seen: set<nat>, now: int, liked: set<nat>)
    requires a.isActive && a.interests == {m} && |a.slots| == 1 && a.slots[0].date == now + 2 * Hour
    requires 0 !in seen && m !in liked
    ensures IsCandidate(a, 0, {m}, seen, now)
    ensures Score(a, {m}, liked, {}, now) == 6 && Score(a, {m}, liked, {m}, now) == 3
  {
    assert a.slots[0] in a.slots;
    assert a.slots[..0] == [];
    assert Soonest(a.slots, now) == Some(now + 2 * Hour);
  }

  /** A single candidate is the whole ranking, and `filter` returns it for any positive `limit`. */
  lemma SingleCandidate(events: seq<Event>, table: seq<Interest>, direct: seq<nat>, records: seq<Record>, user: nat,
                        rows: seq<Tagging>, now: int, limit: int, i: nat, score: int)
    requires Candidates(events, Expanded(table, direct), Seen(records, user), now) == [i]
    requires var fb := Split(rows, LikedEvents(records, user), DislikedEvents(records, user));
      i < |events| && Score(events[i], Expanded(table, direct), fb.0, fb.1, now) == score
    requires limit >= 1
    ensures Ranked(events, table, direct, records, user, rows, now) == [Scored(i, score)]
    ensures Recommended(events, table, direct, records, user, rows, now, limit) == [i]
  {
    var ranked := Ranked(events, table, direct, records, user, rows, now);
    assert ranked == [Scored(i, score)];
    assert ranked[1..] == [];
    assert SortByScore(ranked) == [Scored(i, score)];
  }

  /** Of an event considered first and one sharing no interest, only the first can be a candidate. */
  lemma CandidatesOfTwo(a: Event, b: Event, m: nat, seen: set<nat>, now: int)
    requires IsCandidate(a, 0, {m}, seen, now) && m !in b.interests
    ensures Candidates([a, b], {m}, seen, now) == [0]
  {
    assert [a, b][..1] == [a] && [a][..0] == [];
    assert b.interests * {m} == {};
    CandidatesStep([a, b], {m}, seen, now);
    CandidatesStep([a], {m}, seen, now);
  }

  /** A seen third event adds no candidate. */
  lemma CandidatesOfThree(a: Event, b: Event, c: Event, m: nat, seen: set<nat>, now: int)
    requires IsCandidate(a, 0, {m}, seen, now) && m !in b.interests && 2 in seen
    ensures Candidates([a, b, c], {m}, seen, now) == [0]
  {
    CandidatesOfTwo(a, b, m, seen, now);
    assert [a, b, c][..2] == [a, b];
    CandidatesStep([a, b, c], {m}, seen, now);
  }

  /**
   * A user interested in Music with no feedback; event 0 is a Music event two
   * hours ahead, event 1 has only other interests: only event 0 is returned,
   * with score 3 + 3 = 6.
   */
  lemma MusicScenario(a: Event, b: Event, table: seq<Interest>, m: nat, records: seq<Record>, user: nat, now: int, limit: int)
    requires a.isActive && a.interests == {m} && |a.slots| == 1 && a.slots[0].date == now + 2 * Hour
    requires m !in b.interests
    requires forall j :: 0 <= j < |table| ==> table[j].parent != Some(m)
    requires forall i :: 0 <= i < |records| ==> records[i].user != user
    requires limit >= 1
    ensures Ranked([a, b], table, [m], records, user, [], now) == [Scored(0, 6)]
    ensures Recommended([a, b], table, [m], records, user, [], now, limit) == [0]
  {
    ExpandedSingle(table, m);
    assert Seen(records, user) == {};
    MusicEvent(a, m, {}, now, {});
    CandidatesOfTwo(a, b, m, {}, now);
    SingleCandidate([a, b], table, [m], records, user, [], now, limit, 0, 6);
  }

  /** The join of a single Music event disliked by the user is one row. */
  lemma DislikeJoin(a: Event, b: Event, c: Event, m: nat, user: nat)
    requires c.interests == {m}
    ensures var records := [Record(user, 2, false)];
      IsJoin([Tagging(2, m)], [a, b, c], LikedEvents(records, user) + DislikedEvents(records, user))
  {
    FeedbackOfOne(user, 2, false);
  }

  /**
   * The same user after disliking event 2, a Music event: event 0 now scores
   * 6 - 3 = 3, event 1 is still no candidate and event 2 is excluded as seen.
   */
  lemma DislikeScenario(a: Event, b: Event, c: Event, table: seq<Interest>, m: nat, user: nat, now: int, limit: int)
    requires a.isActive && a.interests == {m} && |a.slots| == 1 && a.slots[0].date == now + 2 * Hour
    requires m !in b.interests && c.interests == {m}
    requires forall j :: 0 <= j < |table| ==> table[j].parent != Some(m)
    requires limit >= 1
    ensures Ranked([a, b, c], table, [m], [Record(user, 2, false)], user, [Tagging(2, m)], now) == [Scored(0, 3)]
    ensures Recommended([a, b, c], table, [m], [Record(user, 2, false)], user, [Tagging(2, m)], now, limit) == [0]
  {
    var records := [Record(user, 2, false)];
    ExpandedSingle(table, m);
    FeedbackOfOne(user, 2, false);
    SplitOfDisliked(Tagging(2, m), {}, {2});
    MusicEvent(a, m, {2}, now, {});
    CandidatesOfThree(a, b, c, m, {2}, now);
    SingleCandidate([a, b, c], table, [m], records, user, [Tagging(2, m)], now, limit, 0, 3);
  }
}
