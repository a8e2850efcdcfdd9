# Rate limiter, ASIN extractor and duplicate lookup of a FastAPI product-comparison service

This project is a Dafny model of the three units in `app/utils/utils.py` of a small
FastAPI service. The service compares two Amazon product listings. Its database
caches earlier comparisons, and it has a per-client rate limiter.

- **RateLimiter** (`rate_limiter.dfy`) models `ip_based_rate_limiter` and the
  process-wide map `request_counts`. The class `IpRateLimiter` holds
  `requestCounts: map<string, seq<int>>`. Its method `Admit(client, now)` is one
  atomic call. It drops the client's timestamps that are 60 or more seconds old,
  rejects with 429 when 3 or more remain, and otherwise appends `now` and admits.
  `Admit` is proved against the pure functions `Prune`, `Verdict`, `Advance` and
  `Next`. The lemmas about those functions carry the properties. The deepest is
  `AtMostMaxRequestsPerWindow`: with a clock that never goes back, any four
  admitted calls of one client span at least 60 seconds.
- **AsinExtractor** (`asin_extractor.dfy`) models `extract_asin_from_amazon_url`.
  It has seven fixed patterns, each a prefix, a 10-character `[A-Z0-9]` token and
  a suffix. A pattern is found at its leftmost position, ignoring case. The
  patterns are tried in list order, and the first that matches gives the
  upper-cased token.
- **DuplicateLookup** (`duplicate_lookup.dfy`) models `checkDuplicateConversation`.
  The database is a `Store` value with three parts:
  - the item rows, keyed by `asin_code`;
  - the comparison rows, keyed by the ordered pair of item ids;
  - the queries that raise an exception, each with its message.

  Queries run in the source's order. Any exception becomes
  `(false, "something went wrong " + message)`.
- **Wrappers** (`wrappers.dfy`) holds the `Option` type. `None` plays Python's `None`.

Points of the code that the model keeps as written (line numbers are in `app/utils/utils.py`):
- The limit is 3 (line 90). The comment at line 89 says 5.
- The rejection carries the fixed text "Rate limit exceeded. Try again in 60 seconds."
  (lines 104-107).
- The lookup does not stop early when no ASIN is extracted (lines 54-63). It queries
  `asin_code == None`, which the ORM turns into `IS NULL`, so the store's item map
  is keyed by `Option<string>`. `UnparsedUrlsStillQueried` shows the effect: two
  URLs without an ASIN can be reported as a cached duplicate.
- The comparison record is looked up for the ordered pair only (line 68,
  `ReversedPairIsNotFound`).
- The lookup returns a `(bool, string)` pair (lines 66, 71, 73, 77).
- Client entries are never removed from `request_counts` (lines 81-110); a rejected
  client's key stays, with its pruned list.

## Model

| member | source | states |
|---|---|---|
| `AsinExtractor.Patterns` | app/utils/utils.py:33-41 | The seven patterns in source order, each as its literal prefix, the 10-character token and its literal suffix. A constant; its content is used by `DpSlashNeverDecides`, `ShortUrlHasNoAsin` and `DpDecides`. |
| `AsinExtractor.MatchesAt` | app/utils/utils.py:33-44 | A pattern matches at a position when each prefix character equals the URL's ignoring ASCII case, ten `[A-Za-z0-9]` characters follow, then the suffix. No contract; the leftmost-match property is carried by `SearchFrom`. |
| `AsinExtractor.CaptureAt` | app/utils/utils.py:46 | `match.group(1)`: the text after the prefix of a match. It is 10 characters long, each in the `[A-Za-z0-9]` class. |
| `AsinExtractor.Upper` | app/utils/utils.py:46 | `.upper()` on ASCII: the result has the same length, each character is the same letter ignoring case, and each `[A-Za-z0-9]` character becomes `[A-Z0-9]`. |
| `AsinExtractor.SearchFrom` | app/utils/utils.py:44 | `re.search` on one pattern. A result is the leftmost position where the pattern matches. No result means the pattern matches nowhere in the URL. |
| `AsinExtractor.Search` | app/utils/utils.py:44 | The same as `SearchFrom`, scanning the whole URL from position 0. |
| `AsinExtractor.ExtractWith` | app/utils/utils.py:43-49 | The loop over a pattern list. Any result is exactly 10 characters, each an upper-case ASCII letter or a digit. The result is None exactly when no pattern of the list matches. |
| `AsinExtractor.ExtractAsin` | app/utils/utils.py:22-49 | The extractor over the seven patterns. Any result is 10 upper-case letters or digits. It is None exactly when none of the seven patterns matches. |
| `AsinExtractor.FirstMatchDecides` | app/utils/utils.py:33-46 | If pattern k is the first in list order that matches, and i is its leftmost match, the result is the upper-cased capture at i. Later patterns that also match make no difference. |
| `AsinExtractor.LeftmostUnique` | app/utils/utils.py:44 | A pattern has only one leftmost match position. |
| `AsinExtractor.DpSlashImpliesDp` | app/utils/utils.py:34-37 | Wherever `/dp/X/` matches, `/dp/X` matches at the same position. |
| `AsinExtractor.DropNonMatching` | app/utils/utils.py:43-46 | Removing a pattern that does not match the URL leaves the result unchanged. |
| `AsinExtractor.SameMatchingHead` | app/utils/utils.py:43-46 | Two pattern lists that start with the same pattern give the same result whenever that pattern matches. |
| `AsinExtractor.DpSlashNeverDecides` | app/utils/utils.py:33-46 | For every URL, the list without pattern 4 (`/dp/X/`) gives the same result as the full list. Pattern 4 never decides. |
| `AsinExtractor.DpDecides` | app/utils/utils.py:34-46 | When `/dp/X` matches, the token after its leftmost `/dp/` is the result, upper-cased. |
| `AsinExtractor.MixedCaseDp` | app/utils/utils.py:44-46 | Matching ignores case: `/DP/b0abcdefgh` yields `B0ABCDEFGH`. |
| `AsinExtractor.ShortUrlHasNoAsin` | app/utils/utils.py:43-49 | A URL of at most 10 characters yields None, not an error. |
| `AsinExtractor.SlashedInExample` | app/utils/utils.py:38 | `/X/` matches `/B000000001/dp/B000000002` at position 0. |
| `AsinExtractor.LeftmostDpInExample` | app/utils/utils.py:34 | The leftmost match of `/dp/X` in that URL is at position 11. |
| `AsinExtractor.DpBeatsEarlierSlashed` | app/utils/utils.py:33-46 | That URL yields `B000000002`. `/dp/X` wins by list order even though `/X/` matches earlier in the string. |
| `DuplicateLookup.LookupBody` | app/utils/utils.py:58-73 | The `try` body after the two extractions: open the service, query both items, then the ordered-pair record, stopping at the first query that raises. No contract; its outcome is carried by `CheckDuplicateConversation`. |
| `DuplicateLookup.CheckDuplicateConversation` | app/utils/utils.py:51-77 | The result is true exactly when no query raises and both items and the ordered-pair record exist. A true result's string is that record's response. A false result has string `""` exactly when nothing raised. Otherwise its string starts with "something went wrong ". |
| `DuplicateLookup.MissingItemIsNoDuplicate` | app/utils/utils.py:61-66 | With either item absent and no failures, the result is `(false, "")`. |
| `DuplicateLookup.MissingRecordIsNoDuplicate` | app/utils/utils.py:68-71 | Both items present but no record for the ordered pair `(item1.id, item2.id)` gives `(false, "")`. |
| `DuplicateLookup.ReversedPairIsNotFound` | app/utils/utils.py:68-71 | A record stored only for `(id2, id1)` is not found for `(url1, url2)`. It is found for `(url2, url1)`. |
| `DuplicateLookup.RecordFound` | app/utils/utils.py:68-73 | Both items and the ordered-pair record present gives `(true, record.llm_response_string)`. |
| `DuplicateLookup.SessionFailureIsReported` | app/utils/utils.py:58-77 | If opening the database service raises, the result is `(false, "something went wrong " + message)`. Nothing propagates. |
| `DuplicateLookup.SecondItemQueryAlwaysRuns` | app/utils/utils.py:61-66 | Both item queries run before either result is checked. A failing second query is reported even when the first item is missing. |
| `DuplicateLookup.UnparsedUrlsStillQueried` | app/utils/utils.py:54-73 | URLs whose ASIN is None are still looked up, as `asin_code IS NULL`. A stored record for such an item is found. |
| `RateLimiter.Prune` | app/utils/utils.py:97-100 | Every kept timestamp t satisfies `now - t < 60`. The pruned list is no longer than the original. |
| `RateLimiter.PruneKeepsInWindow` | app/utils/utils.py:97-100 | Each in-window timestamp is kept as often as it occurs. Every other timestamp is dropped. |
| `RateLimiter.PruneKeepsOrder` | app/utils/utils.py:97-100 | The pruned list is a subsequence of the original: survivors keep their relative order. |
| `RateLimiter.PruneCountsWindow` | app/utils/utils.py:97-103 | The pruned list's length is the number of the history's entries that lie in the window. |
| `RateLimiter.RejectedIffWindowFull` | app/utils/utils.py:97-107 | A call is rejected exactly when 3 or more of the client's stored timestamps lie in the 60-second window. |
| `RateLimiter.RejectionIs429` | app/utils/utils.py:104-107 | A rejection carries status 429 and the detail "Rate limit exceeded. Try again in 60 seconds." |
| `RateLimiter.AdvanceStores` | app/utils/utils.py:97-110 | On admission the stored list is the pruned list plus `now`, and it holds at most 3 entries. On rejection it is the pruned list, with nothing appended. Every stored timestamp is in the window. |
| `RateLimiter.NextPreservesBound` | app/utils/utils.py:97-110 | If every client's list holds at most 3 timestamps before a call, the same holds after it. |
| `RateLimiter.NextIsolatesClients` | app/utils/utils.py:81-110 | A call leaves every other client's entry unchanged. The calling client's key is present afterwards, even on rejection (the `defaultdict` read inserts it). |
| `RateLimiter.OtherClientStillAdmitted` | app/utils/utils.py:97-110 | A client with three calls in the window is rejected. Another, new client calling at the same instant is admitted. |
| `RateLimiter.Verdict` | app/utils/utils.py:97-107 | The decision for a client's stored list: rejected with 429 when 3 or more pruned timestamps remain, otherwise allowed. No contract; the property is carried by `RejectedIffWindowFull` and `RejectionIs429`. |
| `RateLimiter.Advance` | app/utils/utils.py:97-110 | The client's list after one call: the pruned list, with `now` appended when admitted. No contract; the property is carried by `AdvanceStores`. |
| `RateLimiter.History` | app/utils/utils.py:97-98 | The read of `request_counts`, a `defaultdict(list)` (line 81): a client's stored list, empty for a first-time client. No contract; carried by `NextIsolatesClients` and `FirstCallsAdmitted`. |
| `RateLimiter.Next` | app/utils/utils.py:97-110 | The whole map after one call: the caller's entry set to `Advance` of its history. No contract; carried by `NextIsolatesClients` and `NextPreservesBound`. |
| `RateLimiter.IpRateLimiter.constructor` | app/utils/utils.py:81 | The map starts empty and satisfies the bound invariant. |
| `RateLimiter.IpRateLimiter.Admit` | app/utils/utils.py:84-112 | One atomic call. It returns `Verdict` of the client's old list. The new map is `Next` of the old one. The invariant that every list holds at most 3 timestamps is kept. |
| `RateLimiter.PruneSnoc` | app/utils/utils.py:97-100 | Pruning a list with one more timestamp at its end prunes the front as before, then keeps the last timestamp exactly when it is in the window. |
| `RateLimiter.StateAfterSnoc` | app/utils/utils.py:97-110 | One more call by a client runs one more step on the list stored after the earlier calls. |
| `RateLimiter.StateAfterLength` | app/utils/utils.py:97-110 | After n calls the stored list holds at most n timestamps. |
| `RateLimiter.FirstCallsAdmitted` | app/utils/utils.py:97-110 | A new client's first three calls are admitted, whatever their times. |
| `RateLimiter.ThreeCallsStored` | app/utils/utils.py:97-110 | Three calls by a new client within one window are all stored, in order. |
| `RateLimiter.AdmittedRecentGrows` | app/utils/utils.py:97-110 | If call q is admitted and its time lies in the window, then for every m > q the list of admitted in-window calls among the first m calls is at least one entry longer than the list among the first q calls. |
| `RateLimiter.AdvanceAdmittedRecent` | app/utils/utils.py:97-110 | If pruning the stored list gives the admitted in-window calls, one more step gives the same list with the new call added exactly when it is admitted. |
| `RateLimiter.PruneAdmittedRecent` | app/utils/utils.py:97-100 | Pruning the admitted calls within an earlier window at a later time gives the admitted calls within the later window. |
| `RateLimiter.StateIsAdmittedRecent` | app/utils/utils.py:97-110 | With a non-decreasing clock, a client's stored list after n calls is exactly the timestamps of its admitted calls still in the window, in order. |
| `RateLimiter.AtMostMaxRequestsPerWindow` | app/utils/utils.py:90-110 | With a non-decreasing clock, of any four admitted calls of one client the last comes at least 60 seconds after the first. No window admits more than 3 calls. |
| `RateLimiter.BurstOfFour` | app/utils/utils.py:97-110 | Calls at t, t+1, t+2, t+3 from a new client give Allow, Allow, Allow, Reject(429). |
| `RateLimiter.SpreadOutFour` | app/utils/utils.py:97-110 | Calls at t, t+10, t+20, t+70 from a new client give four Allows. |

## Left out

- `convert_rating_to_int` (app/utils/utils.py:14-20) parses floats. It is not part of this model.
- The `asyncio.Lock` and async scheduling are concurrency. A limiter call is one atomic step, which is what the lock ensures.
- `datetime.now()` is wall-clock I/O. `now` is an integer parameter in whole seconds. The source compares `datetime` values at microsecond resolution.
- `AtMostMaxRequestsPerWindow` and `StateIsAdmittedRecent` assume a clock that never goes back. `datetime.now()` can go back. The one-call properties hold for any clock.
- `request.client.host`, `Request` and `HTTPException` are framework wiring. They become a client-key parameter and the `Admission` result. `Rejected(429, detail)` stands for the raised exception, and `Allowed` for `return True`.
- An application-wide map of all clients' traces is not modelled. The trace lemmas follow one client, which `NextIsolatesClients` justifies.
- SQLAlchemy, `DB_service` and the session lifecycle are foreign calls. They become the `Store` value. `.first()` over several matching rows becomes the one id stored per key.
- `DuplicateLookup.CheckDuplicateConversation` models exceptions only from the four database operations. Other failures, such as a URL that is not a string, are outside the typed model.
- General regular-expression semantics are not modelled. Only the seven fixed patterns are matched, by a hand-written matcher.
- `AsinExtractor.ExtractAsin` folds case for ASCII letters only. Under `re.IGNORECASE`, Python's `[A-Z]` also matches U+0130, U+0131, U+017F and U+212A (KELVIN SIGN). `str.upper()` leaves U+212A and U+0130 as they are. So in Python a token holding them would not be all ASCII, and the model's "upper-case ASCII letter or digit" promise is about ASCII-folded matching only.
- Python's `str.upper()` on non-ASCII characters is not modelled. The model's token characters are ASCII.
- app/db_config.py (engine and session set-up from environment variables) is not part of this model.
- app/routes/routes.py (router, `get_db` session generator, hello-world endpoint) is not part of this model.
