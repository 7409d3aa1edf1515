/** Vocabulary shared by every module: optional values, outcomes, identifiers and instants. */
module Common {

  datatype Option<+T> = None | Some(value: T)

  datatype Result<+T, +E> = Ok(value: T) | Err(error: E)

  /** Rows are keyed by UUID text; the empty text is the absent reference. */
  type Id = string

  const NO_ID: Id := ""

  /** An instant is a count of nanoseconds since 0001-01-01T00:00:00Z, so that zero is the zero time. */
  type Instant = int

  const ZERO_TIME: Instant := 0

  const MIN_INT64: int := -0x8000_0000_0000_0000
  const MAX_INT64: int := 0x7FFF_FFFF_FFFF_FFFF

  type int64 = x: int | MIN_INT64 <= x <= MAX_INT64

  const TWO_TO_64: int := 0x1_0000_0000_0000_0000

  /** Two's complement wrap-around of 64-bit signed arithmetic. */
  function Wrap64(x: int): (r: int64)
    ensures (r - x) % TWO_TO_64 == 0
    ensures MIN_INT64 <= x <= MAX_INT64 <==> r == x
  {
    var low := (x - MIN_INT64) % TWO_TO_64;
    assert 0 <= low < TWO_TO_64;
    low + MIN_INT64
  }

  /** A choice from a list without repetitions is complete exactly when it is as long as the list. */
  lemma {:induction false} DistinctCount(s: seq<Id>, chosen: set<Id>)
    requires forall i, j :: 0 <= i < j < |s| ==> s[i] != s[j]
    requires forall t :: t in chosen ==> t in s
    ensures |chosen| <= |s|
    ensures |chosen| == |s| <==> forall t :: t in s ==> t in chosen
  {
    if s != [] {
      var front, last := s[..|s| - 1], s[|s| - 1];
      DistinctCount(front, chosen - {last});
      assert last !in front;
      assert forall t :: t in s <==> t in front || t == last;
    }
  }
}
