/**
 * `FeedbackCRUD`: a user's like or dislike of an event over an in-memory
 * `user_event_feedback` table. Sending the feedback a record already holds
 * withdraws it; sending the other value overwrites it.
 */
module FeedbackRepository {
  import opened Wrappers
  import opened Sql

  /** A row of `user_event_feedback`: who, which event, and whether they liked it. */
  datatype Record = Record(user: nat, event: nat, like: bool)

  /** The rows `get_feedback` selects. */
  function PairMatches(records: seq<Record>, user: nat, event: nat): seq<nat> {
    Matching(records, (f: Record) => f.user == user && f.event == event)
  }

  predicate HasPair(records: seq<Record>, user: nat, event: nat) {
    exists i :: 0 <= i < |records| && records[i].user == user && records[i].event == event
  }

  /**
   * At most one record per `(user, event)` pair. The table has no such
   * constraint; it is an invariant that `feedback_an_event` keeps.
   */
  predicate UniquePairs(records: seq<Record>) {
    forall i, j :: 0 <= i < |records| && 0 <= j < |records| && records[i].user == records[j].user && records[i].event == records[j].event ==> i == j
  }

  /** The `like` values stored for a pair, in table order. */
  function Likes(records: seq<Record>, user: nat, event: nat): seq<bool> {
    if records == [] then []
    else
      var f := records[|records| - 1];
      Likes(records[..|records| - 1], user, event) + (if f.user == user && f.event == event then [f.like] else [])
  }

  /**
   * `get_feedback`: the row holding the pair, none when there is none, and
   * `MultipleResultsFound` when several do (never on a table with unique pairs).
   */
  function Get(records: seq<Record>, user: nat, event: nat): (r: Result<Option<nat>, DbError>)
    ensures r.Success? && r.value.Some? ==>
      r.value.value < |records| && records[r.value.value].user == user && records[r.value.value].event == event
    ensures r == Success(None) <==> !HasPair(records, user, event)
    ensures UniquePairs(records) ==> r.Success?
  {
    var m := PairMatches(records, user, event);
    PairMatchCount(records, user, event);
    assert m != [] ==> m[0] < |records| && records[m[0]].user == user && records[m[0]].event == event;
    OneOrNone(m)
  }

  /** No match without a record for the pair; exactly one under unique pairs when there is one. */
  lemma PairMatchCount(records: seq<Record>, user: nat, event: nat)
    ensures !HasPair(records, user, event) ==> PairMatches(records, user, event) == []
    ensures HasPair(records, user, event) ==> PairMatches(records, user, event) != []
    ensures UniquePairs(records) && HasPair(records, user, event) ==> |PairMatches(records, user, event)| == 1
  {
    if HasPair(records, user, event) {
      var i :| 0 <= i < |records| && records[i].user == user && records[i].event == event;
      assert i in PairMatches(records, user, event);
      if UniquePairs(records) {
        MatchingSingle(records, (f: Record) => f.user == user && f.event == event, i);
      }
    } else {
      MatchingEmpty(records, (f: Record) => f.user == user && f.event == event);
    }
  }

  /** The table without row `i`. */
  function Remove(records: seq<Record>, i: nat): seq<Record>
    requires i < |records|
  {
    records[..i] + records[i + 1..]
  }

  /**
   * `feedback_an_event`: the new table and what the call returns. A record
   * with the same value is deleted and nothing is returned; one with the
   * other value is overwritten and returned; otherwise a record is added and
   * returned.
   */
  function Toggle(records: seq<Record>, user: nat, event: nat, like: bool): Result<(seq<Record>, Option<Record>), DbError> {
    match Get(records, user, event)
    case Failure(err) => Failure(err)
    case Success(None) =>
      var f := Record(user, event, like);
      Success((records + [f], Some(f)))
    case Success(Some(i)) =>
      if records[i].like == like then Success((Remove(records, i), None))
      else
        var f := records[i].(like := like);
        Success((records[i := f], Some(f)))
  }

  // ------------------------------------------------------------ what a toggle does

  lemma {:induction false} LikesConcat(a: seq<Record>, b: seq<Record>, user: nat, event: nat)
    ensures Likes(a + b, user, event) == Likes(a, user, event) + Likes(b, user, event)
  {
    if b != [] {
      var init := b[..|b| - 1];
      assert (a + b)[..|a + b| - 1] == a + init;
      LikesConcat(a, init, user, event);
    } else {
      assert a + b == a;
    }
  }

  /** One record's contribution to the likes of a pair. */
  lemma LikesOne(f: Record, user: nat, event: nat)
    ensures Likes([f], user, event) == if f.user == user && f.event == event then [f.like] else []
  {
    assert [f][..0] == [];
  }

  /** A pair no record holds has no likes. */
  lemma {:induction false} LikesAbsent(records: seq<Record>, user: nat, event: nat)
    requires !HasPair(records, user, event)
    ensures Likes(records, user, event) == []
  {
    if records != [] {
      var init := records[..|records| - 1];
      assert forall j :: 0 <= j < |init| ==> init[j] == records[j];
      LikesAbsent(init, user, event);
    }
  }

  /** Rows around `i` and row `i` itself, as far as the likes of a pair go. */
  lemma LikesAround(records: seq<Record>, i: nat, user: nat, event: nat)
    requires i < |records|
    ensures Likes(records, user, event)
      == Likes(records[..i], user, event) + Likes([records[i]], user, event) + Likes(records[i + 1..], user, event)
  {
    assert records == records[..i] + [records[i]] + records[i + 1..];
    LikesConcat(records[..i] + [records[i]], records[i + 1..], user, event);
    LikesConcat(records[..i], [records[i]], user, event);
  }

  /** With no record for the pair, a record with the sent value is added and returned. */
  lemma ToggleCreates(records: seq<Record>, user: nat, event: nat, like: bool)
    requires !HasPair(records, user, event)
    ensures Toggle(records, user, event, like) == Success((records + [Record(user, event, like)], Some(Record(user, event, like))))
  {
  }

  /** A record already holding the sent value is deleted and nothing is returned: the feedback is withdrawn. */
  lemma ToggleWithdraws(records: seq<Record>, user: nat, event: nat, like: bool, i: nat)
    requires UniquePairs(records)
    requires i < |records| && records[i] == Record(user, event, like)
    ensures Toggle(records, user, event, like) == Success((Remove(records, i), None))
    ensures !HasPair(Remove(records, i), user, event)
  {
    PairHolder(records, user, event, i);
    var r := Remove(records, i);
    forall j | 0 <= j < |r|
      ensures r[j].user != user || r[j].event != event
    {
      if j < i {
        assert r[j] == records[j];
      } else {
        assert r[j] == records[j + 1];
      }
    }
  }

  /** A record holding the other value is overwritten with the sent one and returned. */
  lemma ToggleOverwrites(records: seq<Record>, user: nat, event: nat, like: bool, i: nat)
    requires UniquePairs(records)
    requires i < |records| && records[i] == Record(user, event, !like)
    ensures Toggle(records, user, event, like) == Success((records[i := Record(user, event, like)], Some(Record(user, event, like))))
  {
    PairHolder(records, user, event, i);
  }

  /** Under unique pairs the row holding a pair is the one `get_feedback` finds. */
  lemma PairHolder(records: seq<Record>, user: nat, event: nat, i: nat)
    requires UniquePairs(records)
    requires i < |records| && records[i].user == user && records[i].event == event
    ensures Get(records, user, event) == Success(Some(i))
  {
    MatchingSingle(records, (f: Record) => f.user == user && f.event == event, i);
  }

  /** Sending the same feedback twice, starting with no record, restores the table and returns nothing. */
  lemma ToggleTwice(records: seq<Record>, user: nat, event: nat, like: bool)
    requires UniquePairs(records) && !HasPair(records, user, event)
    ensures var once := Toggle(records, user, event, like);
      once.Success? && Toggle(once.value.0, user, event, like) == Success((records, None))
  {
    var f := Record(user, event, like);
    var grown := records + [f];
    ToggleCreates(records, user, event, like);
    AppendKeepsUnique(records, f);
    ToggleWithdraws(grown, user, event, like, |records|);
    assert Remove(grown, |records|) == records;
  }

  /** A record for a pair no row holds keeps the pairs unique. */
  lemma AppendKeepsUnique(records: seq<Record>, f: Record)
    requires UniquePairs(records) && !HasPair(records, f.user, f.event)
    ensures UniquePairs(records + [f])
  {
    var t := records + [f];
    assert forall j :: 0 <= j < |records| ==> t[j] == records[j];
  }

  /** Deleting a row keeps the pairs unique. */
  lemma RemoveKeepsUnique(records: seq<Record>, i: nat)
    requires UniquePairs(records) && i < |records|
    ensures UniquePairs(Remove(records, i))
  {
    var r := Remove(records, i);
    assert forall j :: 0 <= j < |r| ==> r[j] == records[if j < i then j else j + 1];
  }

  /**
   * On a table with unique pairs a toggle always succeeds, keeps the pairs
   * unique, leaves the likes of every other pair as they were, and leaves the
   * pair holding either nothing (withdrawn) or exactly the sent value.
   */
  lemma ToggleFrame(records: seq<Record>, user: nat, event: nat, like: bool, u: nat, e: nat)
    requires UniquePairs(records)
    ensures var r := Toggle(records, user, event, like);
      && r.Success?
      && UniquePairs(r.value.0)
      && ((u != user || e != event) ==> Likes(r.value.0, u, e) == Likes(records, u, e))
      && (Likes(r.value.0, user, event) == [] || Likes(r.value.0, user, event) == [like])
      && (Likes(r.value.0, user, event) == [] <==> r.value.1.None?)
  {
    if !HasPair(records, user, event) {
      FrameCreate(records, user, event, like, u, e);
    } else {
      var i :| 0 <= i < |records| && records[i].user == user && records[i].event == event;
      NoOtherHolder(records, user, event, i);
      if records[i].like == like {
        FrameWithdraw(records, user, event, like, i, u, e);
      } else {
        FrameOverwrite(records, user, event, like, i, u, e);
      }
    }
  }

  lemma FrameCreate(records: seq<Record>, user: nat, event: nat, like: bool, u: nat, e: nat)
    requires UniquePairs(records) && !HasPair(records, user, event)
    ensures var t := records + [Record(user, event, like)];
      && Toggle(records, user, event, like) == Success((t, Some(Record(user, event, like))))
      && UniquePairs(t)
      && ((u != user || e != event) ==> Likes(t, u, e) == Likes(records, u, e))
      && Likes(t, user, event) == [like]
  {
    var f := Record(user, event, like);
    ToggleCreates(records, user, event, like);
    AppendKeepsUnique(records, f);
    LikesConcat(records, [f], u, e);
    LikesOne(f, u, e);
    LikesConcat(records, [f], user, event);
    LikesOne(f, user, event);
    LikesAbsent(records, user, event);
  }

  lemma FrameWithdraw(records: seq<Record>, user: nat, event: nat, like: bool, i: nat, u: nat, e: nat)
    requires UniquePairs(records) && i < |records| && records[i] == Record(user, event, like)
    ensures var t := Remove(records, i);
      && Toggle(records, user, event, like) == Success((t, None))
      && UniquePairs(t)
      && ((u != user || e != event) ==> Likes(t, u, e) == Likes(records, u, e))
      && Likes(t, user, event) == []
  {
    ToggleWithdraws(records, user, event, like, i);
    RemoveKeepsUnique(records, i);
    LikesAround(records, i, u, e);
    LikesOne(records[i], u, e);
    LikesConcat(records[..i], records[i + 1..], u, e);
    LikesAbsent(Remove(records, i), user, event);
  }

  lemma FrameOverwrite(records: seq<Record>, user: nat, event: nat, like: bool, i: nat, u: nat, e: nat)
    requires UniquePairs(records) && i < |records| && records[i] == Record(user, event, !like)
    ensures var t := records[i := Record(user, event, like)];
      && Toggle(records, user, event, like) == Success((t, Some(Record(user, event, like))))
      && UniquePairs(t)
      && ((u != user || e != event) ==> Likes(t, u, e) == Likes(records, u, e))
      && Likes(t, user, event) == [like]
  {
    var t := records[i := Record(user, event, like)];
    ToggleOverwrites(records, user, event, like, i);
    OverwriteKeepsUnique(records, i, like);
    NoOtherHolder(records, user, event, i);
    assert t[..i] == records[..i] && t[i + 1..] == records[i + 1..];
    LikesAround(records, i, u, e);
    LikesOne(records[i], u, e);
    LikesAround(t, i, u, e);
    LikesOne(t[i], u, e);
    LikesAround(t, i, user, event);
    LikesOne(t[i], user, event);
    LikesAbsent(records[..i], user, event);
    LikesAbsent(records[i + 1..], user, event);
  }

  /** The rows before and after the one holding a pair hold other pairs. */
  lemma NoOtherHolder(records: seq<Record>, user: nat, event: nat, i: nat)
    requires UniquePairs(records)
    requires i < |records| && records[i].user == user && records[i].event == event
    ensures !HasPair(records[..i], user, event) && !HasPair(records[i + 1..], user, event)
  {
    assert forall j :: 0 <= j < i ==> records[..i][j] == records[j];
    var after := records[i + 1..];
    assert forall j :: 0 <= j < |after| ==> after[j] == records[i + 1 + j];
  }

  /** Changing the `like` of a row keeps the pairs unique. */
  lemma OverwriteKeepsUnique(records: seq<Record>, i: nat, like: bool)
    requires UniquePairs(records) && i < |records|
    ensures UniquePairs(records[i := records[i].(like := like)])
  {
  }

  /** Two records for one pair make `get_feedback`, and so the toggle, raise `MultipleResultsFound`. */
  lemma DuplicatePairFails(records: seq<Record>, user: nat, event: nat, like: bool, i: nat, j: nat)
    requires i < j < |records|
    requires records[i].user == user && records[i].event == event
    requires records[j].user == user && records[j].event == event
    ensures Toggle(records, user, event, like) == Failure(MultipleResultsFound)
  {
    var m := PairMatches(records, user, event);
    assert i in m && j in m;
    var a :| 0 <= a < |m| && m[a] == i;
    var b :| 0 <= b < |m| && m[b] == j;
    assert a != b;
  }

  // ------------------------------------------------------------ the repository object

  /** `FeedbackCRUD` over its session: the feedback table it reads and writes. */
  class FeedbackCrud {
    var records: seq<Record>

    constructor(records: seq<Record>)
      ensures this.records == records
    {
      this.records := records;
    }

    /** `get_feedback`: the row holding the pair, if any. */
    method GetFeedback(user: nat, event: nat) returns (r: Result<Option<nat>, DbError>)
      ensures r == Get(records, user, event)
    {
      r := OneOrNone(PairMatches(records, user, event));
    }

    /** `feedback_an_event`: delete, overwrite or add the pair's record; return it unless deleted. */
    method FeedbackAnEvent(user: nat, event: nat, like: bool) returns (r: Result<Option<Record>, DbError>)
      modifies this
      ensures match Toggle(old(records), user, event, like)
        case Success(v) => r == Success(v.1) && records == v.0
        case Failure(err) => r == Failure(err) && records == old(records)
    {
      var existing := GetFeedback(user, event);
      match existing
      case Failure(err) =>
        r := Failure(err);
      case Success(Some(i)) =>
        if records[i].like == like {
          records := records[..i] + records[i + 1..];
          r := Success(None);
        } else {
          records := records[i := records[i].(like := like)];
          r := Success(Some(records[i]));
        }
      case Success(None) =>
        var f := Record(user, event, like);
        records := records + [f];
        r := Success(Some(f));
    }
  }
}
