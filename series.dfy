/**
  The input of the pivot engine: a single-variable meteorological series,
  one record per dated observation, and the sentinel clean-up that is applied
  to it before any aggregation.
 */
module Series {

  datatype Option<+T> = None | Some(value: T)

  datatype Result<+R, +E> = Success(value: R) | Failure(error: E)

  /** A calendar month number, as `dt.month` yields it. */
  type Month = m: int | 1 <= m <= 12 witness 1

  /** The numeric code the data sets use for "no observation". */
  const Sentinel: real := -9999.0

  /**
    One data row of the input sheet: its date reduced to the calendar year and
    month, and the value of the data column. `None` is an empty cell (the reader
    yields no value for it); `Some(Sentinel)` is a cell holding the code -9999.
   */
  datatype Record = Record(year: nat, month: Month, value: Option<real>)

  /** No record still carries the sentinel code as a value. */
  predicate SentinelFree(recs: seq<Record>)
  {
    forall i :: 0 <= i < |recs| ==> recs[i].value != Some(Sentinel)
  }

  /** The replacement of -9999 by NaN on a single cell. */
  function NormalizeValue(v: Option<real>): (r: Option<real>)
    ensures r.None? <==> v.None? || v == Some(Sentinel)
    ensures r.Some? ==> r == v
  {
    if v == Some(Sentinel) then None else v
  }

  /**
    The data column with every -9999 replaced by a missing value. Dates are
    untouched, so each record keeps its year and month and its position.
   */
  function Normalize(raw: seq<Record>): (recs: seq<Record>)
    ensures |recs| == |raw|
    ensures SentinelFree(recs)
    ensures forall i :: 0 <= i < |raw| ==>
              recs[i].year == raw[i].year && recs[i].month == raw[i].month
    ensures forall i :: 0 <= i < |raw| ==>
              (recs[i].value.None? <==> raw[i].value.None? || raw[i].value == Some(Sentinel))
    ensures forall i :: 0 <= i < |raw| && recs[i].value.Some? ==> recs[i].value == raw[i].value
  {
    seq(|raw|, i requires 0 <= i < |raw| => raw[i].(value := NormalizeValue(raw[i].value)))
  }

  /** Normalising an already normalised series changes nothing. */
  lemma NormalizeIdempotent(raw: seq<Record>)
    ensures Normalize(Normalize(raw)) == Normalize(raw)
  {
    var once := Normalize(raw);
    assert forall i :: 0 <= i < |once| ==> Normalize(once)[i] == once[i];
  }

  /** A sentinel-free series is already normalised. */
  lemma NormalizeKeepsSentinelFree(recs: seq<Record>)
    requires SentinelFree(recs)
    ensures Normalize(recs) == recs
  {
    assert forall i :: 0 <= i < |recs| ==> Normalize(recs)[i] == recs[i];
  }

  /** Normalisation works record by record, so it distributes over concatenation. */
  lemma NormalizeAppend(a: seq<Record>, b: seq<Record>)
    ensures Normalize(a + b) == Normalize(a) + Normalize(b)
  {
    var left, right := Normalize(a + b), Normalize(a) + Normalize(b);
    assert |left| == |right|;
    forall i | 0 <= i < |left| ensures left[i] == right[i] {
      if i < |a| {
        assert (a + b)[i] == a[i];
      } else {
        assert (a + b)[i] == b[i - |a|];
      }
    }
  }
}
