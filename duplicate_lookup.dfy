/**
 * The duplicate-comparison lookup of app/utils/utils.py
 * (`checkDuplicateConversation`).
 *
 * Both URLs go through the ASIN extractor; the item table is queried for each
 * ASIN (a missing ASIN is queried as `asin_code == None`, which the ORM turns
 * into `IS NULL`, so no short-circuit); when both items exist, the comparison
 * table is queried for the ORDERED pair of their ids.  Any exception raised on
 * the way becomes `(False, "something went wrong <message>")`.
 *
 * The database is a value: the rows of each table as a map, and the set of
 * queries that raise (with their messages).
 */
module DuplicateLookup {
  import opened Wrappers
  import AsinExtractor

  type ItemId = int

  /** The database operations the lookup performs, in the order it performs them. */
  datatype Query =
    | OpenSession                                  // `DB_service()`
    | ItemByAsin(asin: Option<string>)             // `query(Item).filter(asin_code == asin).first()`
    | ComparisonByPair(first: ItemId, second: ItemId) // `query(ConversationHistory).filter(...).first()`

  /**
   * `items` maps an `asin_code` (None for a NULL column) to the id of the first
   * matching row; `comparisons` maps `(product_id_1, product_id_2)` to
   * `llm_response_string`; `faults` maps each query that raises to the text of its exception.
   */
  datatype Store = Store(
    items: map<Option<string>, ItemId>,
    comparisons: map<(ItemId, ItemId), string>,
    faults: map<Query, string>)

  /** A step that completes with a value or raises an exception with a message. */
  datatype Attempt<+T> = Done(value: T) | Raised(error: string) {
    predicate IsFailure() { Raised? }

    function PropagateFailure<U>(): Attempt<U>
      requires Raised?
    {
      Raised(error)
    }

    function Extract(): T
      requires Done?
    {
      value
    }
  }

  /** Runs query `q`: raises if the store says so, otherwise yields `answer`. */
  function Perform<T>(store: Store, q: Query, answer: T): Attempt<T>
  {
    if q in store.faults then Raised(store.faults[q]) else Done(answer)
  }

  function ItemFor(store: Store, asin: Option<string>): Attempt<Option<ItemId>>
  {
    Perform(store, ItemByAsin(asin), if asin in store.items then Some(store.items[asin]) else None)
  }

  function ComparisonFor(store: Store, first: ItemId, second: ItemId): Attempt<Option<string>>
  {
    Perform(store, ComparisonByPair(first, second),
            if (first, second) in store.comparisons then Some(store.comparisons[(first, second)]) else None)
  }

  /** The body of the `try` block, after the two extractions. */
  function LookupBody(store: Store, asin1: Option<string>, asin2: Option<string>): Attempt<(bool, string)>
  {
    var _ :- Perform(store, OpenSession, ());
    var item1 :- ItemFor(store, asin1);
    var item2 :- ItemFor(store, asin2);
    if item1.None? || item2.None? then Done((false, ""))
    else
      var record :- ComparisonFor(store, item1.value, item2.value);
      if record.None? then Done((false, "")) else Done((true, record.value))
  }

  /** Prefix of the message that replaces any exception. */
  const FailurePrefix := "something went wrong "

  /** None of the queries that run for ASINs `asin1` and `asin2` raises. */
  predicate NoFaultOnTheWay(store: Store, asin1: Option<string>, asin2: Option<string>)
  {
    && OpenSession !in store.faults
    && ItemByAsin(asin1) !in store.faults
    && ItemByAsin(asin2) !in store.faults
    && (asin1 in store.items && asin2 in store.items ==>
          ComparisonByPair(store.items[asin1], store.items[asin2]) !in store.faults)
  }

  /** A cached comparison exists for the ordered pair of the items with these ASINs. */
  predicate CachedFor(store: Store, asin1: Option<string>, asin2: Option<string>)
  {
    asin1 in store.items && asin2 in store.items && (store.items[asin1], store.items[asin2]) in store.comparisons
  }

  /**
   * `checkDuplicateConversation`: `(true, response)` exactly when no query raises and
   * both items and the ordered-pair record exist; otherwise `false`, with `""` when
   * nothing raised and the exception's message behind FailurePrefix when something did.
   */
  function CheckDuplicateConversation(url1: string, url2: string, store: Store): (r: (bool, string))
    ensures var a1, a2 := AsinExtractor.ExtractAsin(url1), AsinExtractor.ExtractAsin(url2);
            r.0 <==> NoFaultOnTheWay(store, a1, a2) && CachedFor(store, a1, a2)
    ensures var a1, a2 := AsinExtractor.ExtractAsin(url1), AsinExtractor.ExtractAsin(url2);
            r.0 ==> r.1 == store.comparisons[(store.items[a1], store.items[a2])]
    ensures var a1, a2 := AsinExtractor.ExtractAsin(url1), AsinExtractor.ExtractAsin(url2);
            !r.0 ==> (r.1 == "" <==> NoFaultOnTheWay(store, a1, a2))
    ensures var a1, a2 := AsinExtractor.ExtractAsin(url1), AsinExtractor.ExtractAsin(url2);
            !r.0 && !NoFaultOnTheWay(store, a1, a2) ==> FailurePrefix <= r.1
  {
    var asin1 := AsinExtractor.ExtractAsin(url1);
    var asin2 := AsinExtractor.ExtractAsin(url2);
    match LookupBody(store, asin1, asin2)
    case Done(result) => result
    case Raised(e) => (false, FailurePrefix + e)
  }

  // ---------------------------------------------------------------------------
  // Consequences, stated without reference to the lookup's internals

  /** Either item missing: not a duplicate, and an empty string. */
  lemma MissingItemIsNoDuplicate(url1: string, url2: string, store: Store)
    requires store.faults == map[]
    requires AsinExtractor.ExtractAsin(url1) !in store.items || AsinExtractor.ExtractAsin(url2) !in store.items
    ensures CheckDuplicateConversation(url1, url2, store) == (false, "")
  {
  }

  /** Both items present but no record for their ordered pair: not a duplicate. */
  lemma MissingRecordIsNoDuplicate(url1: string, url2: string, store: Store, id1: ItemId, id2: ItemId)
    requires store.faults == map[]
    requires AsinExtractor.ExtractAsin(url1) in store.items && store.items[AsinExtractor.ExtractAsin(url1)] == id1
    requires AsinExtractor.ExtractAsin(url2) in store.items && store.items[AsinExtractor.ExtractAsin(url2)] == id2
    requires (id1, id2) !in store.comparisons
    ensures CheckDuplicateConversation(url1, url2, store) == (false, "")
  {
  }

  /** A record stored for the reversed pair is not found: the pair is ordered. */
  lemma ReversedPairIsNotFound(url1: string, url2: string, id1: ItemId, id2: ItemId, response: string)
    requires id1 != id2
    requires AsinExtractor.ExtractAsin(url1) != AsinExtractor.ExtractAsin(url2)
    ensures var store := Store(
              map[AsinExtractor.ExtractAsin(url1) := id1, AsinExtractor.ExtractAsin(url2) := id2],
              map[(id2, id1) := response],
              map[]);
            CheckDuplicateConversation(url1, url2, store) == (false, "")
            && CheckDuplicateConversation(url2, url1, store) == (true, response)
  {
  }

  /** Both items and the ordered-pair record present: a duplicate, with the stored response. */
  lemma RecordFound(url1: string, url2: string, store: Store, id1: ItemId, id2: ItemId)
    requires store.faults == map[]
    requires AsinExtractor.ExtractAsin(url1) in store.items && store.items[AsinExtractor.ExtractAsin(url1)] == id1
    requires AsinExtractor.ExtractAsin(url2) in store.items && store.items[AsinExtractor.ExtractAsin(url2)] == id2
    requires (id1, id2) in store.comparisons
    ensures CheckDuplicateConversation(url1, url2, store) == (true, store.comparisons[(id1, id2)])
  {
  }

  /** A failing connection is reported in the string and never propagates. */
  lemma SessionFailureIsReported(url1: string, url2: string, store: Store)
    requires OpenSession in store.faults
    ensures CheckDuplicateConversation(url1, url2, store) == (false, FailurePrefix + store.faults[OpenSession])
  {
  }

  /**
   * Both item queries run before either result is checked: a failing second
   * item query is reported even when the first item is missing.
   */
  lemma SecondItemQueryAlwaysRuns(url1: string, url2: string, store: Store)
    requires OpenSession !in store.faults && ItemByAsin(AsinExtractor.ExtractAsin(url1)) !in store.faults
    requires AsinExtractor.ExtractAsin(url1) !in store.items
    requires ItemByAsin(AsinExtractor.ExtractAsin(url2)) in store.faults
    ensures CheckDuplicateConversation(url1, url2, store)
            == (false, FailurePrefix + store.faults[ItemByAsin(AsinExtractor.ExtractAsin(url2))])
  {
  }

  /**
   * No short-circuit when extraction fails: two URLs without an ASIN are looked up
   * as NULL, and a stored comparison of an item without ASIN with itself is found.
   */
  lemma UnparsedUrlsStillQueried(url1: string, url2: string, id: ItemId, response: string)
    requires AsinExtractor.ExtractAsin(url1) == None && AsinExtractor.ExtractAsin(url2) == None
    ensures CheckDuplicateConversation(url1, url2, Store(map[None := id], map[(id, id) := response], map[]))
            == (true, response)
  {
  }
}
