# GroceryStoreAPI customer store, modelled in Dafny

This project models the core of GroceryStoreAPI, a small ASP.NET API for
customer records. It has two parts:

- The file-backed record store, `JsonFileHelper`. It reads the whole customer
  document from `database.json`. `SaveChanges` changes one record in memory
  and writes the whole document back.
- The request controller, `CustomerController`. Its four operations are
  `Get()`, `Get(id)`, `Post(customer)` and `Put(id, name)`. Each reads the
  store, runs a chain of guards and answers with one response category.

The files:

- `wrappers.dfy`: `Option`, `Result` and `Outcome`. These stand for null
  references and thrown exceptions.
- `models.dfy` (module `Models`): the `Customer` record and the
  `CustomerList` document, whose list may be null. It also holds the three
  data annotations on `Customer.Name` as predicates, `string.IsNullOrWhiteSpace`
  with .NET's set of white-space characters, and the `BadCustomer` sentinel.
- `store.dfy` (module `Store`): the data file as abstract state
  `Missing | Unreadable | NullDoc | Doc(list)`. It also holds the first-match
  lookup, the upsert, `ReadFrom`, `ReadFromById`, and the `JsonFileHelper`
  class. `SaveChanges` is an imperative method of that class, proved against
  the pure function `Save`. Every failure inside `SaveChanges` comes out as
  one `InvalidOperationException`, and a failure leaves the file unchanged.
- `controller.dfy` (module `Controller`): the response categories, the
  stable sort that `OrderBy(r => r.Id)` performs, and the guard chains of
  `Get`, `Get(id)`, `Post` and `Put`. The guard chains are pure functions.
  `PostEffect` and `PutEffect` give the response together with the new file
  state. The `CustomerController` class's methods are proved equal to these
  functions. Four client methods replay the two-record store of the
  controller tests through the class contracts and the lemmas.

The model follows the code, including these behaviours:

- A missing data file reads as a `CustomerList` whose list is null, not as an
  empty list. So `Get()` on a missing file fails on `.Count` and answers 500.
- `SaveChanges` on a missing file adds to that null list and throws. It never
  creates the file.
- A document that parses to `null` is written back as `null`. The id check is
  skipped on this path, so even a non-positive id "succeeds".
- `ReadFromById` falls back to `new Customer()` (id 0, name null), never to
  null. So `Get(id)` on the real store never answers 404: an unknown id gives
  200 with the default customer. `GetByIdOnStore` proves this.
- `Post` checks the name before the id. It calls `Exists` on the list before
  testing `Id <= 0`, so a null list answers 500 even for a non-positive id.
- `Put` encodes the name before every guard. A non-positive id gives 404
  unless some stored record carries that id. In that case the store's own id
  check throws and the answer is 500 (`PutNonPositiveId`).

## Model

| member | source | states |
|---|---|---|
| `Models.BadCustomer` | GroceryStoreAPI/GroceryStoreAPI/Models/Customer.cs:19-26 | the sentinel has id -1 and name "Bad Customer" |
| `Models.ValidNameCharacterised` | GroceryStoreAPI/GroceryStoreAPI/Models/Customer.cs:12 | `[Required]`, `[RegularExpression("^[a-zA-Z]+$")]` and `[MaxLength(50)]` together hold exactly when the name is present, has 1 to 50 characters, and all of them are ASCII letters (both directions) |
| `Models.ValidNameIsNotBlank` | GroceryStoreAPI/GroceryStoreAPI/Models/Customer.cs:12 | a name that satisfies the annotations is never null or white space, so it always passes the controllers' empty-name guard; it has at most 50 characters |
| `Models.BadCustomerIsRejected` | GroceryStoreAPI/GroceryStoreAPI/Models/Customer.cs:12-26 | the sentinel's id is not positive, and its name fails the annotations because of the space |
| `Store.FirstWithId` | GroceryStoreAPI/GroceryStoreAPI/Data/JsonFileHelper.cs:29-30 | the `FirstOrDefault` scan: a found index holds the id and no earlier record does; "none" exactly when no record has the id |
| `Store.UpsertAppendsAbsent` | GroceryStoreAPI/GroceryStoreAPI/Data/JsonFileHelper.cs:29-35 | saving an id that is absent grows the list by one, keeps every earlier record, and puts the customer last |
| `Store.UpsertReplacesFirst` | GroceryStoreAPI/GroceryStoreAPI/Data/JsonFileHelper.cs:36-40 | saving an id that is present overwrites the first record with that id at its index; the length and all other positions stay the same |
| `Store.UpsertKeepsIdsUnique` | GroceryStoreAPI/GroceryStoreAPI/Data/JsonFileHelper.cs:29-40 | if the ids were unique they stay unique, and afterwards the saved customer is the one record carrying its id |
| `Store.UpsertIds` | GroceryStoreAPI/GroceryStoreAPI/Data/JsonFileHelper.cs:29-40 | after an upsert the present ids are the earlier ids plus the saved one (both directions) |
| `Store.ReadFrom` | GroceryStoreAPI/GroceryStoreAPI/Data/JsonFileHelper.cs:56-61 | an existing file yields its document, which may be null; a missing file yields a fresh `CustomerList` with a null list; only an unreadable file throws |
| `Store.ReadFromById` | GroceryStoreAPI/GroceryStoreAPI/Data/JsonFileHelper.cs:63-66 | succeeds exactly on a document with a non-null list, and then never returns null; it returns the first record with the id, or the default customer (id 0, name null) on a miss |
| `Store.SaveKeepsIdsUnique` | GroceryStoreAPI/GroceryStoreAPI/Data/JsonFileHelper.cs:24-47 | a successful save into a document with unique ids writes a document whose ids are unique and in which only the saved customer has its id |
| `Store.SaveThenReadById` | GroceryStoreAPI/GroceryStoreAPI/Data/JsonFileHelper.cs:29-47 | round trip: after a successful save into a document, `ReadFromById` of the saved id returns the saved customer |
| `Store.JsonFileHelper.constructor` | GroceryStoreAPI/GroceryStoreAPI/Data/JsonFileHelper.cs:13-16 | the data file is `database.json`, and its contents are the given state |
| `Store.JsonFileHelper.SaveChanges` | GroceryStoreAPI/GroceryStoreAPI/Data/JsonFileHelper.cs:18-54 | success exactly when `Save` produces a document, which then becomes the file. Every failure is an `InvalidOperationException` and leaves the file unchanged. A missing file fails and stays missing. A non-positive id on a document fails. A null document is written back as null. After success on a document, `ReadFromById` returns the customer |
| `Controller.SortByIdSorted` | GroceryStoreAPI/GroceryStoreAPI/Controllers/CustomerController.cs:53 | `OrderBy(r => r.Id)` returns its records in ascending id order |
| `Controller.SortByIdPermutes` | GroceryStoreAPI/GroceryStoreAPI/Controllers/CustomerController.cs:53 | `OrderBy(r => r.Id)` returns a permutation of its input: every record exactly as often as before |
| `Controller.SortByIdStable` | GroceryStoreAPI/GroceryStoreAPI/Controllers/CustomerController.cs:53 | `OrderBy(r => r.Id)` is stable: the records sharing an id come out in their input order |
| `Controller.SortByIdKeepsSorted` | GroceryStoreAPI/GroceryStoreAPI/Controllers/CustomerController.cs:53 | a list already in ascending id order comes back unchanged |
| `Controller.ListResponse` | GroceryStoreAPI/GroceryStoreAPI/Controllers/CustomerController.cs:37-63 | `Get()`: a 500 "database null" exactly for a null document; an unhandled 500 exactly for a read failure or a null list (`.Count` on null); a 404 exactly for an empty list; a 200 exactly for a non-empty list, carrying a sorted permutation of it in which the records sharing an id keep their order |
| `Controller.GetByIdResponse` | GroceryStoreAPI/GroceryStoreAPI/Controllers/CustomerController.cs:79-90 | `Get(id)`: an exception is an unhandled 500 exactly when the lookup throws; a 404 exactly for a null customer; a 200 exactly for a found customer, carrying that customer |
| `Controller.GetByIdOnStore` | GroceryStoreAPI/GroceryStoreAPI/Controllers/CustomerController.cs:75-91 | on the real store `Get(id)` never answers 404. A miss gives 200 with the default customer, a hit gives 200 with a record of that id, and a null document or list gives 500 |
| `Controller.PostGuard` | GroceryStoreAPI/GroceryStoreAPI/Controllers/CustomerController.cs:118-132 | `Post`'s guards in order: a read failure is an unhandled 500; a null document the "database null" 500; then a blank name a 400; then a null list an unhandled 500 (`Exists` on null); then a taken or non-positive id a 400. The request reaches the save exactly when a document with a non-null list was read, the name is not blank, and the id is positive and absent |
| `Controller.PostEffect` | GroceryStoreAPI/GroceryStoreAPI/Controllers/CustomerController.cs:114-144 | a stopped request answers the guard's response and leaves the file alone; a save that throws after the guards passed is an unhandled 500 with the file unchanged; a 201 happens exactly when the guards pass and the write succeeds, and carries the candidate's id and the candidate |
| `Controller.PostRejectsBlankName` | GroceryStoreAPI/GroceryStoreAPI/Controllers/CustomerController.cs:118-127 | with a readable, non-null document, a null or white-space name is a 400 whatever the id, and the file is unchanged |
| `Controller.PostRejectsUnusableId` | GroceryStoreAPI/GroceryStoreAPI/Controllers/CustomerController.cs:128-132 | on a document with a non-null list and with a non-blank name, a non-positive or already taken id is a 400, and the file is unchanged (on a missing file, a null document or a null list the source answers 500 instead) |
| `Controller.PostCreates` | GroceryStoreAPI/GroceryStoreAPI/Controllers/CustomerController.cs:118-142 | only a 201 changes the file; a failed write after the guards is a 500 with the file unchanged; a 201 happens exactly when the guards pass and the write succeeds; it carries the candidate's id, appends the candidate, keeps ids unique, and `Get(id)` then returns the candidate |
| `Controller.PutGuard` | GroceryStoreAPI/GroceryStoreAPI/Controllers/CustomerController.cs:169-189 | `Put`'s guards in order: a read failure is an unhandled 500; a null document the "database null" 500; then a blank encoded name a 400; then a null list an unhandled 500 (`Exists` on null); then an absent id a 404. The request reaches the save exactly when a document with a non-null list was read, the encoded name is not blank, and the id is present |
| `Controller.PutEffect` | GroceryStoreAPI/GroceryStoreAPI/Controllers/CustomerController.cs:164-201 | a stopped request answers the guard's response and leaves the file alone; once the guards pass, a failed write or a non-positive id (the store's own check) is an unhandled 500 with the file unchanged; otherwise a 200 carrying the id and the encoded name |
| `Controller.PutRejectsBlankName` | GroceryStoreAPI/GroceryStoreAPI/Controllers/CustomerController.cs:169-184 | on a missing file or a document, a blank encoded name is a 400 before existence is checked, and the file is unchanged (a null document or an unreadable file answers 500 first) |
| `Controller.PutReplaces` | GroceryStoreAPI/GroceryStoreAPI/Controllers/CustomerController.cs:185-194 | `Put` never changes the number of records and only a 200 changes the file; a failed write after the guards is a 500 with the file unchanged; a 200 overwrites the first record with the id in place, leaves every other position alone, keeps ids unique, and `Get(id)` then returns the customer with the id and the encoded name |
| `Controller.PutIdempotent` | GroceryStoreAPI/GroceryStoreAPI/Controllers/CustomerController.cs:185-194 | repeating a `Put` that answered 200 answers the same and leaves the file as the first one left it |
| `Controller.PutNonPositiveId` | GroceryStoreAPI/GroceryStoreAPI/Controllers/CustomerController.cs:185-199 | a non-positive id never gives a 200 and never changes the file; on a document with a non-null list and a non-blank name it is a 404 when no record has the id, and a 500 when one does (the store's id check throws) |
| `Controller.CustomerController.constructor` | GroceryStoreAPI/GroceryStoreAPI/Controllers/CustomerController.cs:21-27 | the controller keeps the given store; `CustomersList` starts null |
| `Controller.CustomerController.Get` | GroceryStoreAPI/GroceryStoreAPI/Controllers/CustomerController.cs:37-63 | answers `ListResponse` of what the store reads, and sets `CustomersList` to the document read unless the read threw |
| `Controller.CustomerController.GetById` | GroceryStoreAPI/GroceryStoreAPI/Controllers/CustomerController.cs:75-91 | the response is `GetByIdResponse` of the store's lookup: a throwing lookup is a 500, a null result a 404, and a found customer a 200 carrying it; nothing changes |
| `Controller.CustomerController.Post` | GroceryStoreAPI/GroceryStoreAPI/Controllers/CustomerController.cs:114-144 | the response and the new file are `PostEffect` of the old file; `CustomersList` is the document read unless the read threw |
| `Controller.CustomerController.Put` | GroceryStoreAPI/GroceryStoreAPI/Controllers/CustomerController.cs:164-201 | the name is encoded first; the response and the new file are `PutEffect` of the old file and the encoded name; `CustomersList` is the document read unless the read threw |

## Left out

- JSON serialisation and file I/O are not modelled. The data file is abstract state. A file that cannot be read and a file that cannot be parsed are both `Unreadable`, and the model raises `JsonException` for both; the source raises an I/O exception for the first, but every catch is generic, so the type is never observed. Serialising a document and reading it back is taken to give the same document.
- Whether the final `File.WriteAllText` succeeds is the parameter `writeSucceeds`. A failed write is taken to leave the file unchanged; partial writes are not modelled.
- `HttpUtility.HtmlEncode` is a foreign call. `Put` takes it as a function parameter and nothing about it is assumed, except that the client methods assume it leaves the plain names they use alone.
- ASP.NET is not modelled: routing, `[FromBody]` binding, the automatic 400 that `[ApiController]` returns when the annotations fail, and the result objects with their message texts. The annotations are the predicate `IsValidName`; responses are the `Response` datatype.
- `[MaxLength(50)]` counts UTF-16 code units in .NET; `MaxLengthHolds` counts characters. The two differ only outside the Basic Multilingual Plane, which the letters pattern already rejects.
- Logging has no effect on outcomes and is not modelled.
- Concurrency is not modelled. `SaveChanges` reads, modifies and writes without a lock, so two overlapping saves can lose an update; the model is sequential.
- Null list elements and a null request body are not modelled. Records are values, so a `null` inside the stored list or a null `newCustomer` cannot be expressed.
- The constructor's `?? throw new ArgumentNullException` is not modelled; Dafny references are non-null.
- The controller is bound to the concrete store, not to the `IJsonFileHelper` interface and its test mocks. `GetByIdResponse` still classifies a null lookup as 404, but the real store never produces one.
- The data-file path is the constant `database.json`; its configuration is not modelled.
- `OrderBy`'s deferred evaluation is not modelled; the sorted list is computed at once.
