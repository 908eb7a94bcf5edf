# PXPayBackend inventory and to-do core in Dafny

This project models the two stateful pieces of the PXPayBackend service.

**The product service** (`Services/ProductService.cs`):
- It answers the stock of the teddy bear "福利熊玩偶" through a process-local memory cache. The cache uses the fixed key `"product_stock"` and an absolute expiry of five seconds.
- It can answer the same question without the cache.
- It seeds the bear record (stock 1000, price 299) once.

The store is a sequence of `Product` records. The cache is a map from key to (value, expiresAt). Each cached read takes two inputs: the current time in milliseconds, at which the cache is consulted, and the time the store query takes on a miss. The entry is set when the query returns, so its five seconds run from then. The class `ProductService` keeps a ghost counter of stock queries, so that a hit can be said to perform no store query.

**The to-do controller** (`Controllers/TodoItemsController.cs`):
- It keeps a shared in-memory list of to-do items that starts with ids 1 and 2.
- It supports lookup, insertion with `max(Id) + 1` ids, update of name and completion guarded by id checks, and deletion.
- Each operation returns the HTTP outcome it produces.

Modules:
- `Wrappers`: `Option`.
- `Search`: the first-match linear search that both the store query and the list lookup use.
- `Numerics`: C#'s 32-bit and 64-bit integers, and the unchecked `long` increment.
- `Catalog`: the `Product` record, the stock query and the seeding, as functions over the store.
- `ProductServices`: the cache, the cache-aside read as a function, lemmas about hits, misses and the staleness window, and the `ProductService` class.
- `TodoItems`: the `TodoItem` record, the list functions, lemmas about id uniqueness, and the `TodoItemsController` class.

A cache entry counts as live while `now < expiresAt`. This is the rule the .NET memory cache applies: it treats an entry as expired once its absolute expiry is at or before the current time. A read exactly at the expiry instant is a miss.

The stock query takes the *first* bear in store order, as `Where(..).FirstOrDefault()` does. Duplicate bears are allowed, and the first one's stock is returned.

## Model

| member | source | states |
|---|---|---|
| Search.FirstIndex | Controllers/TodoItemsController.cs:32 | the index found satisfies the condition and no earlier element does; none is found exactly when no element satisfies it |
| Catalog.FirstNamed | Services/ProductService.cs:34-36 | the index found holds a record with that name and no earlier record has it; none is found exactly when no record has the name |
| Catalog.StoreStock | Services/ProductService.cs:28-41 | the result is the stock of the first record named "福利熊玩偶", and 0 when there is none (absence is not an error) |
| Catalog.Seeded | Services/ProductService.cs:84-101 | the seed inserts exactly when no bear is present; the old records stay as a prefix and exactly the seed record (stock 1000, price 29900 cents) is appended; afterwards a bear is always present |
| Catalog.SeedLeavesExactlyOneBear | Services/ProductService.cs:86-101 | seeding a store without a bear leaves exactly one record with that name |
| Catalog.SeedIsIdempotent | Services/ProductService.cs:86-90 | a second sequential seed returns false and leaves the store unchanged |
| Catalog.SeedThenStock | Services/ProductService.cs:92-99 | after seeding a store that had no bear, the stock query reports 1000 |
| ProductServices.StoreThenLookup | Services/ProductService.cs:60-64 | a value stored with a positive lifetime is read back before its expiry and is absent from its expiry on |
| ProductServices.CachedStock | Services/ProductService.cs:44-69 | after the read the cache holds an entry under "product_stock" equal to the returned value, live at the lookup instant and, after a miss, at the instant the query returned; the store is queried exactly when there was no live entry; every other key is untouched |
| ProductServices.HitServesCachedValue | Services/ProductService.cs:48-53 | with a live entry the read returns the cached value, keeps the cache and does not read the store |
| ProductServices.MissReadsStoreAndCaches | Services/ProductService.cs:53-65 | on a miss the read queries the store once, caches that value with expiry 5 s after the query returns (lookup time + query time + 5 s) and returns it |
| ProductServices.StaleWithinWindow | Services/ProductService.cs:53-68 | any later read before the entry expires returns the earlier value without a store read, even if the store has changed |
| ProductServices.MissOpensWindow | Services/ProductService.cs:53-64 | after a miss at t1 whose query took e1, every read in [t1, t1 + e1 + 5 s) returns the store value seen at t1 |
| ProductServices.FreshAfterExpiry | Services/ProductService.cs:53-65 | once the entry has expired, the next read queries the store, returns its current value and starts a new entry expiring five seconds after that query returns |
| ProductServices.StaleThenFreshScenario | Services/ProductService.cs:28-79 | stock 42 is cached by a read at 0 ms whose query takes the simulated 500 ms; after the store changes to 7 the cached read still says 42 at 5499 ms and says 7 at 5500 ms; the uncached read says 7 at once |
| ProductServices.ProductService.constructor | Services/ProductService.cs:17-21 | the service starts with the given cache and store and no stock queries |
| ProductServices.ProductService.GetStockFromDatabase | Services/ProductService.cs:28-41 | returns the stock query's value and counts one stock query; the cache and the store do not change |
| ProductServices.ProductService.GetStock | Services/ProductService.cs:44-69 | result, new cache and number of stock queries are those of the cache-aside read, with the entry set when the query returns; the cache then holds an entry live at the lookup instant equal to the result |
| ProductServices.ProductService.GetStockNoCache | Services/ProductService.cs:75-79 | always returns the current store value with one stock query, and leaves the cache unchanged |
| ProductServices.ProductService.InitTestData | Services/ProductService.cs:84-102 | returns false and keeps the store when a bear exists; otherwise appends the seed record and returns true; the cache is not touched |
| Numerics.WrappingIncrement | Controllers/TodoItemsController.cs:45 | `long + 1` is the successor below the largest `long` and wraps to the smallest `long` at it |
| TodoItems.FindById | Controllers/TodoItemsController.cs:32 | the index found holds an item with that id and no earlier item has it; none is found exactly when no item has the id |
| TodoItems.MaxId | Controllers/TodoItemsController.cs:45 | the result bounds every id in a non-empty list and is one of them |
| TodoItems.NextId | Controllers/TodoItemsController.cs:45 | 1 for an empty list; otherwise the largest id + 1, hence strictly greater than every existing id, while the largest id is below the largest `long`; the smallest `long` at it |
| TodoItems.Renamed | Controllers/TodoItemsController.cs:66-67 | same length; the item at k keeps its id and takes the body's name and completion flag; every other item is unchanged |
| TodoItems.RemovedAt | Controllers/TodoItemsController.cs:82 | the length drops by one, the items before and after k keep their relative order, and the multiset loses exactly the item at k |
| TodoItems.InitialTodosFacts | Controllers/TodoItemsController.cs:15-19 | the initial list has two items with distinct ids, neither complete, and the next id it hands out is 3 |
| TodoItems.PostKeepsIdsDistinct | Controllers/TodoItemsController.cs:45-47 | appending an item with the next id keeps ids pairwise distinct while the largest id is below the largest `long` |
| TodoItems.PostAtMaxIdDuplicates | Controllers/TodoItemsController.cs:45 | at the largest `long` the wrapped id can repeat one already in the list |
| TodoItems.RenameKeepsIdsDistinct | Controllers/TodoItemsController.cs:60-67 | an update keeps ids pairwise distinct |
| TodoItems.RemoveKeepsIdsDistinct | Controllers/TodoItemsController.cs:76-82 | a deletion keeps ids pairwise distinct, and the deleted id is no longer found |
| TodoItems.FindByIdUnique | Controllers/TodoItemsController.cs:32 | with distinct ids, the lookup of an item's id finds that very item |
| TodoItems.TodoItemsController.constructor | Controllers/TodoItemsController.cs:15-19 | the list starts as the two initial items |
| TodoItems.TodoItemsController.GetTodoItems | Controllers/TodoItemsController.cs:23-26 | returns the whole list in order |
| TodoItems.TodoItemsController.GetTodoItem | Controllers/TodoItemsController.cs:30-40 | NotFound exactly when no item has the id; otherwise Ok with the first item that has it; the list is unchanged |
| TodoItems.TodoItemsController.PostTodoItem | Controllers/TodoItemsController.cs:43-49 | answers Created with the body under the next id, appends exactly that item, and keeps ids distinct below the largest `long` |
| TodoItems.TodoItemsController.PutTodoItem | Controllers/TodoItemsController.cs:53-70 | BadRequest with no change on an id mismatch; NotFound with no change on an unknown id; otherwise NoContent with only the matching item's name and completion flag overwritten; ids stay distinct |
| TodoItems.TodoItemsController.DeleteTodoItem | Controllers/TodoItemsController.cs:74-84 | NotFound with no change on an unknown id; otherwise NoContent with exactly the first matching item removed and the rest in order; ids stay distinct and the id is gone |

## Left out

- TodoItems.TodoItemsController.PostTodoItem: ids are proved to stay distinct only while the largest id is below 2^63 - 1. At that id the unchecked C# `+ 1` wraps to -2^63, which is modelled, and uniqueness is no longer promised (see `TodoItems.PostAtMaxIdDuplicates`). From the initial list that would take about 2^63 insertions.
- Asynchrony and `await` are not modelled. The `Task.Delay(500)` in the store query is not modelled as a wait. What it changes is kept: the cache entry is set when the query returns, `elapsed` milliseconds after the lookup, so the window after a miss ends at lookup + elapsed + 5 s. The store is read as it stands at the call, not as it stands after the delay.
- Concurrency is not modelled: every call is sequential. This leaves out:
  - the check-then-insert race in the seeding, where two concurrent seeds can both insert;
  - concurrent misses that both query the store;
  - two concurrent `PostTodoItem` calls that compute the same `Max + 1` and both append, which gives duplicate ids;
  - unsynchronised access to the shared `List<T>`.
- The memory cache's own machinery is replaced by a key to (value, expiresAt) map and an explicit clock. This leaves out eviction, scanning, size limits and sliding expiry.
- EF Core is replaced by a plain sequence of records. This leaves out `DbContext`, `Where`, `FirstOrDefaultAsync`, `AnyAsync` and `SaveChangesAsync`, and database failures.
- Catalog.FirstNamed: names are compared by exact string equality. SQL Server compares under the column's collation and ignores trailing spaces, so a record named "福利熊玩偶 " counts as the bear there but not here.
- Catalog.StoreStock: returns the first bear in the sequence's fixed order. Without `OrderBy`, SQL Server may yield any of several bears.
- Process-wide state is one object. `ProductService` holds the memory cache and the store, and `TodoItemsController` holds the static list. In the source, the memory cache is a singleton shared by per-request service instances, and the static list is initialised once per process. In the model, two objects do not share state, and the controller's constructor stands for that one initialisation.
- The database-generated `Product.Id` is not modelled: the seeded record carries the C# default id 0.
- The decimal `Price` is an integer number of cents.
- Object identity is not modelled. `PostTodoItem` stores the request's own object and sets its `Id`, and `Remove` deletes by reference. The model uses values: the created item is returned, and the first item with the id is removed. These agree as long as no object sits in the list twice, which the controller never causes.
- HTTP routing, the `CreatedAtAction` location header and the response bodies are not modelled. `Controllers/ProductsController.cs` only forwards to the service and turns the seed's boolean into a message.
- `Program.cs` is not part of this model. It holds dependency injection, SQL Server and Redis registration, rate limiting, CORS and host startup.
- `Services/IProductService.cs` is not part of this model. It is an interface declaration.
- Name search strategies and a Redis-backed list cache are not modelled, because the source contains neither. Only the Redis registration exists.
