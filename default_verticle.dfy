/** The `/updates` and `/fortunes` handlers of the default database variant,
    with the database's answers and the random generator's draws as inputs. */
module DefaultVerticle {
  import opened Wrappers
  import opened Models
  import opened KotlinText
  import opened StableSort
  import opened HttpUtils

  /** What the database answers to one lookup of a random id: the rows its
      query yields, or a failure of the query itself. */
  datatype LookupAnswer = Rows(rows: seq<World>) | QueryFailed

  /** Why one lookup failed: its query failed, or it did not yield exactly
      one row. */
  datatype LookupFailure = QueryFailure | NotOneRow(reason: SingleError)

  /** Why a request failed: a lookup (its position among the lookups and the
      reason), or the batch UPDATE. */
  datatype DbError = LookupFailed(index: nat, reason: LookupFailure) | BatchUpdateFailed

  /** `selectRandomWorld()`: the query's single row, or why there is none. */
  function SelectRandomWorld(answer: LookupAnswer): (r: Result<World, LookupFailure>)
    ensures r.Ok? <==> answer.Rows? && |answer.rows| == 1
    ensures r.Ok? ==> r.value == answer.rows[0]
    ensures answer.QueryFailed? ==> r == Err(QueryFailure)
  {
    match answer
    case QueryFailed => Err(QueryFailure)
    case Rows(rows) =>
      match Single(rows)
      case Ok(world) => Ok(world)
      case Err(reason) => Err(NotOneRow(reason))
  }

  /** `selectRandomWorlds(n)`: lookup i gets the answer `answers(i)`;
      `awaitAll` returns the results in argument order, and the whole
      selection fails when a lookup fails (the first such lookup is
      reported). */
  function SelectRandomWorlds(n: nat, answers: nat -> LookupAnswer)
    : (r: Result<seq<World>, DbError>)
    ensures r.Ok? <==> forall i :: 0 <= i < n ==> SelectRandomWorld(answers(i)).Ok?
    ensures r.Ok? ==> |r.value| == n
    ensures r.Ok? ==> forall i :: 0 <= i < n ==> r.value[i] == SelectRandomWorld(answers(i)).value
    ensures r.Err? ==> && r.error.LookupFailed?
                       && r.error.index < n
                       && SelectRandomWorld(answers(r.error.index)) == Err(r.error.reason)
                       && forall j :: 0 <= j < r.error.index ==> SelectRandomWorld(answers(j)).Ok?
  {
    if n == 0 then Ok([])
    else
      match SelectRandomWorlds(n - 1, answers)
      case Err(e) => Err(e)
      case Ok(worlds) =>
        match SelectRandomWorld(answers(n - 1))
        case Err(reason) => Err(LookupFailed(n - 1, reason))
        case Ok(world) => Ok(worlds + [world])
  }

  /** `worlds.map { it.copy(randomNumber = random.nextIntBetween1And10000()) }`,
      where `draws(i)` is the number drawn for the i-th world. */
  function UpdatedWorlds(worlds: seq<World>, draws: nat -> int): (r: seq<World>)
    ensures |r| == |worlds|
    ensures forall i :: 0 <= i < |worlds| ==> r[i].id == worlds[i].id && r[i].randomNumber == draws(i)
  {
    if worlds == [] then []
    else
      var last := |worlds| - 1;
      UpdatedWorlds(worlds[..last], draws) + [worlds[last].(randomNumber := draws(last))]
  }

  /** The order `sortedBy { it.id }` sorts by. */
  function IdOrder(a: World, b: World): bool
  {
    a.id <= b.id
  }

  lemma IdOrderIsTotalPreorder()
    ensures TotalPreorder(IdOrder)
  {
  }

  /** The worlds of `ws` with id `k`, in their order in `ws`. */
  function RowsWithId(ws: seq<World>, k: int): seq<World>
  {
    Equivalents(ws, IdOrder, World(k, 0))
  }

  /** `Tuple.of(randomNumber, id)`: `$1` is the new number and `$2` the id in
      `UPDATE world SET randomnumber = $1 WHERE id = $2`. */
  function UpdateParams(w: World): (int, int)
  {
    (w.randomNumber, w.id)
  }

  function ParamsOf(ws: seq<World>): (r: seq<(int, int)>)
    ensures |r| == |ws|
    ensures forall i :: 0 <= i < |ws| ==> r[i] == UpdateParams(ws[i])
  {
    if ws == [] then [] else [UpdateParams(ws[0])] + ParamsOf(ws[1..])
  }

  /** The argument of `executeBatch`: the updated worlds sorted by id, as
      parameter tuples. */
  function UpdateBatch(updated: seq<World>): (batch: seq<(int, int)>)
    ensures |batch| == |updated|
    ensures forall i, j :: 0 <= i < j < |batch| ==> batch[i].1 <= batch[j].1
  {
    IdOrderIsTotalPreorder();
    SortByOrderedAndStable(updated, IdOrder);
    ParamsOf(SortBy(updated, IdOrder))
  }

  lemma {:induction false} ParamsOfInsert(x: World, s: seq<World>)
    ensures multiset(ParamsOf(Insert(x, s, IdOrder))) == multiset(ParamsOf(s)) + multiset{UpdateParams(x)}
  {
    if s == [] || IdOrder(x, s[0]) {
      assert ([x] + s)[1..] == s;
    } else {
      ParamsOfInsert(x, s[1..]);
      var t := Insert(x, s[1..], IdOrder);
      assert ([s[0]] + t)[1..] == t;
      assert ParamsOf(s) == [UpdateParams(s[0])] + ParamsOf(s[1..]);
    }
  }

  lemma {:induction false} ParamsOfSortBy(s: seq<World>)
    ensures multiset(ParamsOf(SortBy(s, IdOrder))) == multiset(ParamsOf(s))
  {
    if s != [] {
      ParamsOfSortBy(s[1..]);
      ParamsOfInsert(s[0], SortBy(s[1..], IdOrder));
    }
  }

  /** The batch has one tuple per updated world, in ascending id order (the
      lock order that keeps concurrent batches from deadlocking), is a
      permutation of the updated worlds' tuples, and keeps worlds that share
      an id in their selection order. */
  lemma UpdateBatchIsSortedPermutation(updated: seq<World>)
    ensures |UpdateBatch(updated)| == |updated|
    ensures forall i, j :: 0 <= i < j < |updated| ==> UpdateBatch(updated)[i].1 <= UpdateBatch(updated)[j].1
    ensures multiset(UpdateBatch(updated)) == multiset(ParamsOf(updated))
    ensures forall k :: RowsWithId(SortBy(updated, IdOrder), k) == RowsWithId(updated, k)
  {
    IdOrderIsTotalPreorder();
    SortByOrderedAndStable(updated, IdOrder);
    ParamsOfSortBy(updated);
  }

  lemma SortByIdKeepsRowsWithId(updated: seq<World>)
    ensures forall k :: RowsWithId(SortBy(updated, IdOrder), k) == RowsWithId(updated, k)
  {
    IdOrderIsTotalPreorder();
    SortByOrderedAndStable(updated, IdOrder);
  }

  /** Sorting a batch that is already in id order leaves it as it is. */
  lemma UpdateBatchOfSorted(updated: seq<World>)
    requires forall i, j :: 0 <= i < j < |updated| ==> updated[i].id <= updated[j].id
    ensures UpdateBatch(updated) == ParamsOf(updated)
  {
    SortBySortedIsIdentity(updated, IdOrder);
  }

  /** What the database makes of a batch: each statement, in batch order,
      sets the number of the row with its id; an id with no row changes
      nothing. */
  function ApplyBatch(store: map<int, int>, batch: seq<(int, int)>): (r: map<int, int>)
    ensures r.Keys == store.Keys
  {
    if batch == [] then store
    else
      var (number, id) := batch[0];
      ApplyBatch(if id in store then store[id := number] else store, batch[1..])
  }

  /** The number a row ends with: that of the last write to it, if any. */
  function LastWrite(writes: seq<World>, old_number: int): int
  {
    if writes == [] then old_number else writes[|writes| - 1].randomNumber
  }

  lemma {:induction false} ApplyBatchAt(store: map<int, int>, ws: seq<World>, k: int)
    requires k in store
    ensures ApplyBatch(store, ParamsOf(ws))[k] == LastWrite(RowsWithId(ws, k), store[k])
  {
    if ws != [] {
      var w := ws[0];
      var next := if w.id in store then store[w.id := w.randomNumber] else store;
      assert ParamsOf(ws)[1..] == ParamsOf(ws[1..]);
      ApplyBatchAt(next, ws[1..], k);
      var tail := RowsWithId(ws[1..], k);
      if Equivalent(IdOrder, World(k, 0), w) {
        assert RowsWithId(ws, k) == [w] + tail;
      } else {
        assert RowsWithId(ws, k) == tail;
      }
    }
  }

  /** Sorting the batch changes only the lock order, not the outcome: every
      row ends with the number of its last occurrence in selection order
      (so a repeated id is settled as the selection order dictates), and
      rows not in the batch keep theirs. */
  lemma UpdateBatchOutcome(store: map<int, int>, updated: seq<World>)
    ensures ApplyBatch(store, UpdateBatch(updated)) == ApplyBatch(store, ParamsOf(updated))
    ensures forall k :: k in store ==>
              ApplyBatch(store, UpdateBatch(updated))[k] == LastWrite(RowsWithId(updated, k), store[k])
  {
    var viaBatch := ApplyBatch(store, UpdateBatch(updated));
    var inOrder := ApplyBatch(store, ParamsOf(updated));
    forall k | k in store
      ensures viaBatch[k] == LastWrite(RowsWithId(updated, k), store[k])
      ensures inOrder[k] == viaBatch[k]
    {
      UpdateBatchLastWrite(store, updated, k);
      ApplyBatchAt(store, updated, k);
    }
    MapsAgree(viaBatch, inOrder, store.Keys);
  }

  /** The row `k` after the sorted batch holds its last write in selection order. */
  lemma UpdateBatchLastWrite(store: map<int, int>, updated: seq<World>, k: int)
    requires k in store
    ensures ApplyBatch(store, UpdateBatch(updated))[k] == LastWrite(RowsWithId(updated, k), store[k])
  {
    var sorted := SortBy(updated, IdOrder);
    SortByIdKeepsRowsWithId(updated);
    assert RowsWithId(sorted, k) == RowsWithId(updated, k);
    ApplyBatchAt(store, sorted, k);
  }

  lemma MapsAgree(a: map<int, int>, b: map<int, int>, keys: set<int>)
    requires a.Keys == keys && b.Keys == keys
    requires forall k :: k in keys ==> a[k] == b[k]
    ensures a == b
  {
    assert a.Keys == b.Keys;
    assert forall k :: k in a ==> k in b && a[k] == b[k];
  }

  /** What one `/updates` request does: the batch it hands to `executeBatch`
      (None when selection failed first) and its response. */
  datatype UpdatesExchange = UpdatesExchange(batch: Option<seq<(int, int)>>, response: Result<seq<World>, DbError>)

  /** The `/updates` handler: select, give each world a fresh random number, send the
      batch sorted by id, and answer with the updated worlds in selection
      order. `batchFails` says whether `executeBatch` throws. */
  function HandleUpdates(queries: Option<string>, answers: nat -> LookupAnswer,
                         draws: nat -> int, batchFails: bool): (x: UpdatesExchange)
    ensures x.response.Ok? ==> && |x.response.value| == GetQueries(queries)
                               && x.batch == Some(UpdateBatch(x.response.value))
                               && !batchFails
    ensures x.response.Ok? ==> forall i :: 0 <= i < |x.response.value| ==>
                                 && SelectRandomWorld(answers(i)).Ok?
                                 && x.response.value[i].id == SelectRandomWorld(answers(i)).value.id
                                 && x.response.value[i].randomNumber == draws(i)
    ensures x.batch.None? <==> SelectRandomWorlds(GetQueries(queries), answers).Err?
    ensures x.batch.None? ==> x.response == Err(SelectRandomWorlds(GetQueries(queries), answers).error)
    ensures x.batch.Some? ==>
              x.batch.value == UpdateBatch(UpdatedWorlds(SelectRandomWorlds(GetQueries(queries), answers).value, draws))
    ensures x.batch.Some? && batchFails ==> x.response == Err(BatchUpdateFailed)
    ensures x.response.Err? <==> x.batch.None? || batchFails
  {
    var n := GetQueries(queries);
    match SelectRandomWorlds(n, answers)
    case Err(e) => UpdatesExchange(None, Err(e))
    case Ok(worlds) =>
      var updated := UpdatedWorlds(worlds, draws);
      UpdatesExchange(Some(UpdateBatch(updated)), if batchFails then Err(BatchUpdateFailed) else Ok(updated))
  }

  /** Ids and random numbers both lie in [1, 10000], the size of the table. */
  predicate InWorldRange(n: int)
  {
    1 <= n <= 10000
  }

  /** Every row the database answers with carries an id in range. */
  ghost predicate AnswersInRange(answers: nat -> LookupAnswer)
  {
    forall i, k :: answers(i).Rows? && 0 <= k < |answers(i).rows| ==> InWorldRange(answers(i).rows[k].id)
  }

  /** With answers whose rows carry ids in range and draws in range, every
      world in the response lies in range. */
  lemma UpdatesResponseInRange(queries: Option<string>, answers: nat -> LookupAnswer,
                               draws: nat -> int, batchFails: bool)
    requires AnswersInRange(answers)
    requires forall i :: InWorldRange(draws(i))
    ensures var x := HandleUpdates(queries, answers, draws, batchFails);
            x.response.Ok? ==> forall i :: 0 <= i < |x.response.value| ==>
                                 InWorldRange(x.response.value[i].id) && InWorldRange(x.response.value[i].randomNumber)
  {
    var x := HandleUpdates(queries, answers, draws, batchFails);
    if x.response.Ok? {
      var r := x.response.value;
      forall i | 0 <= i < |r| ensures InWorldRange(r[i].id) && InWorldRange(r[i].randomNumber) {
        LookupInRange(answers(i));
      }
    }
  }

  lemma LookupInRange(answer: LookupAnswer)
    requires forall k :: answer.Rows? && 0 <= k < |answer.rows| ==> InWorldRange(answer.rows[k].id)
    ensures SelectRandomWorld(answer).Ok? ==> InWorldRange(SelectRandomWorld(answer).value.id)
  {
  }

  /** When every lookup finds its row and the batch goes through, the
      response holds, in selection order, each lookup's world with its draw,
      and the batch carries the same worlds' parameters reordered by id. */
  lemma UpdatesRespondInSelectionOrder(queries: Option<string>, answers: nat -> LookupAnswer, draws: nat -> int)
    requires forall i :: 0 <= i < GetQueries(queries) ==> SelectRandomWorld(answers(i)).Ok?
    ensures HandleUpdates(queries, answers, draws, false).response.Ok?
    ensures |HandleUpdates(queries, answers, draws, false).response.value| == GetQueries(queries)
    ensures forall i :: 0 <= i < GetQueries(queries) ==>
              HandleUpdates(queries, answers, draws, false).response.value[i]
                == World(SelectRandomWorld(answers(i)).value.id, draws(i))
    ensures HandleUpdates(queries, answers, draws, false).batch.Some?
    ensures multiset(HandleUpdates(queries, answers, draws, false).batch.value)
              == multiset(ParamsOf(HandleUpdates(queries, answers, draws, false).response.value))
    ensures forall i, j :: 0 <= i < j < |HandleUpdates(queries, answers, draws, false).batch.value| ==>
              HandleUpdates(queries, answers, draws, false).batch.value[i].1
                <= HandleUpdates(queries, answers, draws, false).batch.value[j].1
  {
    var n := GetQueries(queries);
    var selected := SelectRandomWorlds(n, answers);
    assert selected.Ok?;
    var updated := UpdatedWorlds(selected.value, draws);
    var x := HandleUpdates(queries, answers, draws, false);
    assert x.response == Ok(updated) && x.batch == Some(UpdateBatch(updated));
    forall i | 0 <= i < n
      ensures updated[i] == World(SelectRandomWorld(answers(i)).value.id, draws(i))
    {
      assert selected.value[i] == SelectRandomWorld(answers(i)).value;
    }
    UpdateBatchIsSortedPermutation(updated);
  }

  /** Two worlds selected with the larger id first are answered in that
      order but updated the other way round. */
  lemma BatchReordersTwo(first: World, second: World)
    requires first.id > second.id
    ensures UpdateBatch([first, second]) == [UpdateParams(second), UpdateParams(first)]
  {
    SortTwoById(first, second);
    assert ParamsOf([second, first]) == [UpdateParams(second), UpdateParams(first)];
  }

  lemma SortTwoById(a: World, b: World)
    requires a.id > b.id
    ensures SortBy([a, b], IdOrder) == [b, a]
  {
    assert [a, b][1..] == [b];
    assert SortBy([b], IdOrder) == [b];
    assert !IdOrder(a, b);
    assert [b][1..] == [];
  }

  /** The fortune every `/fortunes` response adds. */
  const ADDITIONAL_FORTUNE: Fortune := Fortune(0, "Additional fortune added at request time.")

  /** The order `sortBy { it.message }` sorts by. */
  function MessageOrder(a: Fortune, b: Fortune): bool
  {
    StringLe(a.message, b.message)
  }

  lemma MessageOrderIsTotalPreorder()
    ensures TotalPreorder(MessageOrder)
  {
    forall a: Fortune, b: Fortune ensures MessageOrder(a, b) || MessageOrder(b, a) {
      StringLeTotal(a.message, b.message);
    }
    forall a: Fortune, b: Fortune, c: Fortune | MessageOrder(a, b) && MessageOrder(b, c)
      ensures MessageOrder(a, c)
    {
      StringLeTransitive(a.message, b.message, c.message);
    }
  }

  /** Fortunes tie in the sort exactly when their messages are equal. */
  lemma MessageOrderTies(a: Fortune, b: Fortune)
    ensures Equivalent(MessageOrder, a, b) <==> a.message == b.message
  {
    if Equivalent(MessageOrder, a, b) {
      StringLeAntisymmetric(a.message, b.message);
    } else {
      StringLeTotal(a.message, b.message);
    }
  }

  /** Sorting by message orders the fortunes and keeps ties in their order. */
  lemma SortByMessage(s: seq<Fortune>)
    ensures SortedBy(SortBy(s, MessageOrder), MessageOrder)
    ensures StableFor(SortBy(s, MessageOrder), s, MessageOrder)
  {
    MessageOrderIsTotalPreorder();
    SortByOrderedAndStable(s, MessageOrder);
  }

  /** The list the `/fortunes` handler renders: the fetched fortunes collected
      into a mutable list, the additional fortune appended, and the list
      sorted in place by message. It is the fetched fortunes plus exactly one
      more, ordered by message, with fortunes of equal message in their
      fetched order (the additional one after them). */
  method BuildFortunesList(fetched: seq<Fortune>) returns (fortunes: seq<Fortune>)
    ensures |fortunes| == |fetched| + 1
    ensures multiset(fortunes) == multiset(fetched) + multiset{ADDITIONAL_FORTUNE}
    ensures SortedBy(fortunes, MessageOrder)
    ensures StableFor(fortunes, fetched + [ADDITIONAL_FORTUNE], MessageOrder)
  {
    fortunes := [];
    fortunes := fortunes + fetched;
    fortunes := fortunes + [ADDITIONAL_FORTUNE];
    assert fortunes == fetched + [ADDITIONAL_FORTUNE];
    SortByMessage(fortunes);
    fortunes := SortBy(fortunes, MessageOrder);
  }

  /** The whole `/fortunes` handler: the page of the sorted list, sent with
      the common headers and the HTML content type. */
  method HandleFortunes(fetched: seq<Fortune>, date: string, headers: MultiMap) returns (html: string)
    modifies headers
    ensures headers.entries
         == old(headers.entries) + [(SERVER, VERTX_WEB), (DATE, date), (CONTENT_TYPE, TEXT_HTML_UTF8)]
    ensures html == FortunesPage(SortBy(fetched + [ADDITIONAL_FORTUNE], MessageOrder))
  {
    var fortunes := BuildFortunesList(fetched);
    SortByMessage(fetched + [ADDITIONAL_FORTUNE]);
    MessageOrderIsTotalPreorder();
    StableSortIsUnique(fortunes, SortBy(fetched + [ADDITIONAL_FORTUNE], MessageOrder), MessageOrder);
    html := BuildFortunesHtml(fortunes);
    AddCommonHeaders(headers, date);
    headers.Add(CONTENT_TYPE, TEXT_HTML_UTF8);
  }
}
