/** The two database errors the repositories can raise. */
module Sql {
  import opened Wrappers

  datatype DbError =
    | MultipleResultsFound        // `one_or_none()` on a query that matched several rows
    | UniqueViolation(name: string)  // a flush that would store two interests with this name

  /** `result.scalars().one_or_none()`: no row, the one row, or an error for several. */
  function OneOrNone<T>(rows: seq<T>): (r: Result<Option<T>, DbError>)
    ensures r == Success(None) <==> rows == []
    ensures r.Success? && r.value.Some? <==> |rows| == 1
    ensures r.Success? && r.value.Some? ==> r.value.value == rows[0]
    ensures r.Failure? <==> |rows| >= 2
    ensures r.Failure? ==> r.error == MultipleResultsFound
  {
    if |rows| == 0 then Success(None)
    else if |rows| == 1 then Success(Some(rows[0]))
    else Failure(MultipleResultsFound)
  }

  /** The ids of the rows of `s` that satisfy `p`, in table order: `select(...).where(p)`. */
  function Matching<T>(s: seq<T>, p: T -> bool): (r: seq<nat>)
    ensures forall k :: 0 <= k < |r| ==> r[k] < |s| && p(s[r[k]])
    ensures forall a, b :: 0 <= a < b < |r| ==> r[a] < r[b]
    ensures forall i :: 0 <= i < |s| && p(s[i]) ==> i in r
  {
    if s == [] then []
    else Matching(s[..|s| - 1], p) + (if p(s[|s| - 1]) then [|s| - 1] else [])
  }

  /** A query that only row `i` satisfies gives just `i`. */
  lemma {:induction false} MatchingSingle<T>(s: seq<T>, p: T -> bool, i: nat)
    requires i < |s| && p(s[i])
    requires forall j :: 0 <= j < |s| && j != i ==> !p(s[j])
    ensures Matching(s, p) == [i]
  {
    var init := s[..|s| - 1];
    if i == |s| - 1 {
      MatchingEmpty(init, p);
    } else {
      MatchingSingle(init, p, i);
    }
  }

  /** A query no row satisfies gives nothing. */
  lemma {:induction false} MatchingEmpty<T>(s: seq<T>, p: T -> bool)
    requires forall j :: 0 <= j < |s| ==> !p(s[j])
    ensures Matching(s, p) == []
  {
    if s != [] {
      MatchingEmpty(s[..|s| - 1], p);
    }
  }
}
