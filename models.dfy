/** The benchmark's row types and the single-row rule its lookups enforce. */
module Models {
  import opened Wrappers

  /** A row of the `world` table. */
  datatype World = World(id: int, randomNumber: int)

  /** A row of the `fortune` table. */
  datatype Fortune = Fortune(id: int, message: string)

  /** Why a read that expects exactly one row failed. */
  datatype SingleError = NoRow | MoreThanOneRow

  /** `Iterable.single()` and the reactive `awaitSingle()`: the only row of a
      result, or a failure when the result is empty or holds several rows. */
  function Single<T>(rows: seq<T>): (r: Result<T, SingleError>)
    ensures r.Ok? <==> |rows| == 1
    ensures r.Ok? ==> r.value == rows[0]
    ensures r.Err? ==> (r.error == NoRow <==> |rows| == 0)
  {
    if |rows| == 0 then Err(NoRow)
    else if |rows| > 1 then Err(MoreThanOneRow)
    else Ok(rows[0])
  }
}
