# Item store of the item service

This project models the in-memory item store behind the HTTP routes of
`server.js`. The store is an ordered list of items. Each item has an `id`, a
`name` and a `description`. It starts with two seed items, with ids 1 and 2.
The list, get, create, update and delete routes read and change that list in
place.

The model is one Dafny module, `ItemServer` in `server.dfy`:

- `Store` is a class whose field `items: seq<Item>` is the module-level array.
  Its invariant `Valid()` says that ids are unique and at least 1, and that
  every item has a non-empty name.
- Each route is a method of `Store`. Its result is a `Response` (`Ok`,
  `Created`, `Deleted`, `NotFound`, `BadRequest`), which stands for the 200,
  201, 200, 404 and 400 answers.
- A path id is an `Option<int>`. `None` stands for the NaN that `parseInt`
  gives for an unparseable segment, and it equals no id.
- A request-body field is an `Option<string>`. A field is "truthy" when it is
  present and not `''`.
- The lookups (`findIndex`/`find`), the id assignment (`Math.max(...) + 1`)
  and `splice` are functions on sequences: `FindIndex`, `MaxId`, `NextId` and
  `RemoveAt`. The methods' postconditions are stated in terms of these
  functions, and lemmas relate them.

The update handler treats its two fields differently, and the model keeps
this as written. `name` is replaced only by a truthy value, so an empty name
is ignored silently. `description` is replaced whenever it is present, so an
empty description clears the old one. The create handler instead uses
truthiness for both fields: a missing or empty description becomes `''`.

A deleted id is not reissued while a larger id is still live
(`DeleteNoReuse`). Deleting the item with the largest id does let the next
create hand that id out again (`DeleteMaxMayReissue`, `ReissueScenario`).
So does deleting a smaller id first and the larger ones later
(`TwoDeletesReissue`).

## Model

| member | source | states |
|---|---|---|
| ItemServer.Truthy | server.js:55 | JavaScript truthiness of an optional string field (the name test on line 55, the description default on line 62, the name fallback on line 81): falsy exactly when absent or the empty string |
| ItemServer.Matches | server.js:42 | `i.id === parseInt(...)` (lines 42, 71, 90): true exactly when the parsed id is present and equals the item's id, so an unparseable id matches nothing |
| ItemServer.Response.Status | server.js:45 | the status codes of the answers (lines 45, 56, 66, 74, 93): 201 only for a created item, 404 exactly for not-found, and a 4xx code exactly for the two error answers |
| ItemServer.FindIndex | server.js:71 | `findIndex`: the result is the first position whose id equals the requested id; it is `None` exactly when no item has that id, which includes every unparseable id |
| ItemServer.MaxId | server.js:60 | `Math.max` over the ids of a non-empty store: bounds every id and is the id of some item |
| ItemServer.MaxIdIs | server.js:60 | a value that bounds every id and is attained is the maximum id |
| ItemServer.NextId | server.js:60 | the id create assigns: 1 for an empty store; otherwise above every live id, with one more than some live id; hence it is fresh |
| ItemServer.RemoveAt | server.js:96 | `splice(k, 1)`: length drops by one, items before `k` keep their positions, items after it move down one, and the multiset loses exactly the item at `k` |
| ItemServer.Patched | server.js:79-83 | the object spread of an update: the id is kept, the name is the new one when it is truthy and the old one otherwise, the description is the new one whenever present and the old one otherwise, and a non-empty name stays non-empty |
| ItemServer.CreateKeepsUnique | server.js:59-65 | appending an item with the next id keeps ids unique |
| ItemServer.UpdateKeepsUnique | server.js:79-83 | overwriting an item with one of the same id keeps ids unique |
| ItemServer.DeleteKeepsUnique | server.js:96 | removing one item keeps the survivors' ids unique |
| ItemServer.FindUnique | server.js:42 | with unique ids, looking up an item's id finds exactly that item's position |
| ItemServer.FindAfterCreate | server.js:42-48 | round trip: after appending an item with a fresh id, looking that id up finds the new item at the end |
| ItemServer.SameIdsSameFind | server.js:79-83 | lookups depend only on ids, so an update (which keeps every id in place) moves no id |
| ItemServer.DeleteForgetsId | server.js:90-96 | after a delete, in a store with unique ids, the deleted id is no longer found |
| ItemServer.DeleteNoReuse | server.js:60 | deleting an item that does not hold the largest id leaves the next id unchanged and above the deleted id: the next create does not hand it out, nor does any create while a larger id is still live |
| ItemServer.TwoDeletesReissue | server.js:60 | counterexample to unconditional no-reuse: from ids 1, 2, 3, deleting id 2 (not the largest) and then id 3 leaves a store whose next id is 2 |
| ItemServer.DeleteMaxMayReissue | server.js:60 | deleting the item with the largest id makes the next id no larger than the deleted id |
| ItemServer.Store.constructor | server.js:13-16 | the store starts with the two seed items, ids 1 and 2, and satisfies the invariant |
| ItemServer.Store.List | server.js:36-38 | list returns every item, in insertion order |
| ItemServer.Store.Get | server.js:41-49 | get answers with the first item whose id matches, or not-found exactly when no item matches; an unparseable id is never found; the store is not changed |
| ItemServer.Store.Create | server.js:52-67 | a falsy name gives the bad-request answer and leaves the items unchanged; otherwise the result is exactly the old items plus one item at the end, with the next id, the given name, and the description or `''`; the invariant, including non-empty names, is kept |
| ItemServer.Store.Update | server.js:70-86 | an unknown id gives not-found and leaves the items unchanged; otherwise the items become the old items with the found position replaced by its `Patched` form (same id, the name only if it is truthy, the description whenever one is present), so every other item and the length stay the same, and the answer is the updated item; the invariant, including non-empty names, is kept |
| ItemServer.Store.Delete | server.js:89-98 | an unknown id gives not-found and leaves the items unchanged; otherwise exactly the found item is removed and the survivors keep their order |
| ItemServer.SeedScenario | server.js:52-67 | from the seed: create "Item 3" gets id 3, delete id 1, and the list is items 2 and 3, in that order |
| ItemServer.NoReuseScenario | server.js:60 | continuing: the next create gets id 4, not the deleted id 1, and id 1 is not found |
| ItemServer.ReissueScenario | server.js:89-98 | deleting id 3 from items 2 and 3, then creating, reissues id 3 |

## Left out

- Express setup: CORS, body parsing, `app.listen` and the `PORT` setting (server.js:1-10, 111-114). This is library plumbing and I/O.
- The health-check route (server.js:21-33) answers with static JSON and has no logic.
- The catch-all 404 route and the 500 error handler (server.js:101-109). These are framework middleware and logging.
- The JSON envelope (`success`, `data`, `message`) is reduced to the `Response` datatype. `Response.Status` gives its status code.
- `parseInt` itself is not modelled. The path id arrives already parsed as `Option<int>`, so inputs such as `"12abc"` are not modelled.
- Request-body values that are not strings are not modelled: `null`, numbers, `0`, `false`, objects. Fields are `Option<string>`. So `description: null` on update, which the source stores as `null`, is not covered.
- JavaScript numbers are modelled as unbounded integers. Loss of precision above 2^53 is not modelled.
- Concurrent interleaving of requests on the shared array is not modelled. Each handler runs to completion atomically.
- ItemServer.Store.Create: always succeeds on a truthy name. In the source, `Math.max(...items.map(i => i.id))` (server.js:60) passes every id as a separate argument, so a large enough store makes the JavaScript engine throw a `RangeError` (the limit depends on the engine, around 10^5 items in V8), and the error handler (server.js:106-109) then answers 500. Argument-count limits of the engine are not modelled.
