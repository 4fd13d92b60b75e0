/** The request handler (Controllers/CustomerController.cs): four operations
    that read the store, run a chain of guards and classify the result into
    one response category. */
module Controller {
  import opened Wrappers
  import opened Models
  import opened Store

  /** Why a request ended in status 500: the store returned a null document,
      or an exception reached the operation's catch block. */
  datatype ServerCause = DatabaseNull | Unhandled

  /** The response categories of the four operations. */
  datatype Response =
    | OkList(customers: seq<Customer>)     // 200 with the customer list
    | OkCustomer(customer: Customer)       // 200 with one customer
    | NotFound                             // 404
    | BadRequest                           // 400
    | Created(id: Int32, customer: Customer)  // 201 with the route id and the body
    | ServerError(cause: ServerCause)      // 500

  // ----- OrderBy(r => r.Id) -----

  predicate SortedById(s: seq<Customer>) {
    forall i, j :: 0 <= i < j < |s| ==> s[i].id <= s[j].id
  }

  /** The records of `s` that carry `id`, in their order in `s`. */
  function WithId(s: seq<Customer>, id: int): seq<Customer> {
    if s == [] then []
    else (if s[0].id == id then [s[0]] else []) + WithId(s[1..], id)
  }

  /** Place `c` in front of the first record whose id is not smaller. */
  function InsertById(c: Customer, s: seq<Customer>): seq<Customer> {
    if s == [] || c.id <= s[0].id then [c] + s
    else [s[0]] + InsertById(c, s[1..])
  }

  /** A stable sort by ascending id, as `OrderBy` is. */
  function SortById(cs: seq<Customer>): seq<Customer> {
    if cs == [] then [] else InsertById(cs[0], SortById(cs[1..]))
  }

  lemma {:induction false} InsertByIdPermutes(c: Customer, s: seq<Customer>)
    ensures multiset(InsertById(c, s)) == multiset(s) + multiset{c}
  {
    if s != [] && s[0].id < c.id {
      InsertByIdPermutes(c, s[1..]);
      assert s == [s[0]] + s[1..];
    }
  }

  lemma {:induction false} InsertByIdSorted(c: Customer, s: seq<Customer>)
    requires SortedById(s)
    ensures SortedById(InsertById(c, s))
  {
    if s != [] && s[0].id < c.id {
      var t := InsertById(c, s[1..]);
      InsertByIdSorted(c, s[1..]);
      // the head of t is c or s[1], and both are no smaller than s[0]
      assert t[0] == c || t[0] == s[1];
      var r := [s[0]] + t;
      assert InsertById(c, s) == r;
      forall i, j | 0 <= i < j < |r|
        ensures r[i].id <= r[j].id
      {
        assert r[j] == t[j - 1];
        if i == 0 {
          assert t[0].id <= t[j - 1].id;
        } else {
          assert r[i] == t[i - 1];
        }
      }
    }
  }

  lemma {:induction false} InsertByIdStable(c: Customer, s: seq<Customer>, id: int)
    ensures WithId(InsertById(c, s), id) == (if c.id == id then [c] else []) + WithId(s, id)
  {
    if s == [] || c.id <= s[0].id {
      assert ([c] + s)[1..] == s;
    } else {
      var t := InsertById(c, s[1..]);
      var rest := WithId(s[1..], id);
      InsertByIdStable(c, s[1..], id);
      assert InsertById(c, s) == [s[0]] + t;
      assert ([s[0]] + t)[1..] == t;
      if c.id == id {
        // s[0].id < c.id, so s[0] is not among the records with this id
        assert WithId(t, id) == [c] + rest;
        assert WithId(s, id) == rest;
        assert WithId([s[0]] + t, id) == WithId(t, id);
      } else if s[0].id == id {
        assert WithId(t, id) == rest;
        assert WithId(s, id) == [s[0]] + rest;
        assert WithId([s[0]] + t, id) == [s[0]] + rest;
      } else {
        assert WithId(t, id) == rest;
        assert WithId(s, id) == rest;
        assert WithId([s[0]] + t, id) == rest;
      }
    }
  }

  /** OrderBy's result is sorted by ascending id. */
  lemma {:induction false} SortByIdSorted(cs: seq<Customer>)
    ensures SortedById(SortById(cs))
  {
    if cs != [] {
      SortByIdSorted(cs[1..]);
      InsertByIdSorted(cs[0], SortById(cs[1..]));
    }
  }

  /** OrderBy's result is a permutation of its input. */
  lemma {:induction false} SortByIdPermutes(cs: seq<Customer>)
    ensures multiset(SortById(cs)) == multiset(cs)
  {
    if cs != [] {
      SortByIdPermutes(cs[1..]);
      InsertByIdPermutes(cs[0], SortById(cs[1..]));
      assert cs == [cs[0]] + cs[1..];
    }
  }

  /** OrderBy is stable: the records sharing an id keep their relative order. */
  lemma {:induction false} SortByIdStable(cs: seq<Customer>, id: int)
    ensures WithId(SortById(cs), id) == WithId(cs, id)
  {
    if cs != [] {
      SortByIdStable(cs[1..], id);
      InsertByIdStable(cs[0], SortById(cs[1..]), id);
    }
  }

  /** A list already in id order comes back unchanged. */
  lemma {:induction false} SortByIdKeepsSorted(cs: seq<Customer>)
    requires SortedById(cs)
    ensures SortById(cs) == cs
  {
    if cs != [] {
      SortByIdKeepsSorted(cs[1..]);
      assert cs == [cs[0]] + cs[1..];
    }
  }

  // ----- Get() -----

  /** The response of `Get()` for what `ReadFrom` gave: a null document is a
      500, a null list fails on `.Count` and is a 500 too, an empty list is a
      404, and otherwise the whole list comes back sorted by id. */
  function ListResponse(read: Result<Option<CustomerList>, Exception>): (r: Response)
    ensures r == ServerError(DatabaseNull) <==> read == Success(None)
    ensures r == ServerError(Unhandled) <==>
              read.Failure? || (read.Success? && read.value.Some? && read.value.value.customers.None?)
    ensures r.NotFound? <==> read == Success(Some(CustomerList(Some([]))))
    ensures r.OkList? <==>
              read.Success? && read.value.Some? && read.value.value.customers.Some? &&
              read.value.value.customers.value != []
    ensures r.OkList? ==>
              SortedById(r.customers) &&
              multiset(r.customers) == multiset(read.value.value.customers.value)
    ensures r.OkList? ==>
              forall id: int :: WithId(r.customers, id) == WithId(read.value.value.customers.value, id)
  {
    match read
    case Failure(_) => ServerError(Unhandled)
    case Success(None) => ServerError(DatabaseNull)
    case Success(Some(list)) =>
      if list.customers.None? then ServerError(Unhandled)
      else if |list.customers.value| == 0 then NotFound
      else
        var cs := list.customers.value;
        SortByIdSorted(cs);
        SortByIdPermutes(cs);
        assert forall id: int :: WithId(SortById(cs), id) == WithId(cs, id) by {
          forall id: int ensures WithId(SortById(cs), id) == WithId(cs, id) {
            SortByIdStable(cs, id);
          }
        }
        OkList(SortById(cs))
  }

  // ----- Get(int id) -----

  /** The response of `Get(id)` for what `ReadFromById` gave: an exception is
      caught as a 500, a null customer is a 404, any other customer a 200. */
  function GetByIdResponse(lookup: Result<Option<Customer>, Exception>): (r: Response)
    ensures r == ServerError(Unhandled) <==> lookup.Failure?
    ensures r.NotFound? <==> lookup == Success(None)
    ensures r.OkCustomer? <==> lookup.Success? && lookup.value.Some?
    ensures r.OkCustomer? ==> r.customer == lookup.value.value
  {
    match lookup
    case Failure(_) => ServerError(Unhandled)
    case Success(None) => NotFound
    case Success(Some(c)) => OkCustomer(c)
  }

  /** Against the real store `Get(id)` never answers 404: a missing id gives
      200 with the default customer, a present id its first record, and a
      null document or list a 500. */
  lemma GetByIdOnStore(file: FileState, id: Int32)
    ensures GetByIdResponse(ReadFromById(file, id)) != NotFound
    ensures file.Doc? && file.list.customers.Some? && !HasId(file.list.customers.value, id) ==>
              GetByIdResponse(ReadFromById(file, id)) == OkCustomer(DefaultCustomer())
    ensures file.Doc? && file.list.customers.Some? && HasId(file.list.customers.value, id) ==>
              GetByIdResponse(ReadFromById(file, id)).OkCustomer? &&
              GetByIdResponse(ReadFromById(file, id)).customer.id == id
    ensures !(file.Doc? && file.list.customers.Some?) ==>
              GetByIdResponse(ReadFromById(file, id)) == ServerError(Unhandled)
  {
  }

  // ----- Post(Customer) -----

  /** The guards of `Post` in source order, on what `ReadFrom` gave: `Some`
      is the response returned before any save, `None` means "save". */
  function PostGuard(read: Result<Option<CustomerList>, Exception>, c: Customer): (g: Option<Response>)
    ensures g.None? <==>
              read.Success? && read.value.Some? && read.value.value.customers.Some? &&
              !IsNullOrWhiteSpace(c.name) && c.id > 0 && !HasId(read.value.value.customers.value, c.id)
    ensures g.Some? ==> g.value.ServerError? || g.value.BadRequest?
    ensures read.Failure? ==> g == Some(ServerError(Unhandled))
    ensures read == Success(None) ==> g == Some(ServerError(DatabaseNull))
    ensures read.Success? && read.value.Some? && IsNullOrWhiteSpace(c.name) ==> g == Some(BadRequest)
    ensures read.Success? && read.value.Some? && !IsNullOrWhiteSpace(c.name) &&
            read.value.value.customers.None? ==>
              g == Some(ServerError(Unhandled))
    ensures read.Success? && read.value.Some? && !IsNullOrWhiteSpace(c.name) &&
            read.value.value.customers.Some? &&
            (HasId(read.value.value.customers.value, c.id) || c.id <= 0) ==>
              g == Some(BadRequest)
  {
    match read
    case Failure(_) => Some(ServerError(Unhandled))
    case Success(None) => Some(ServerError(DatabaseNull))
    case Success(Some(list)) =>
      if IsNullOrWhiteSpace(c.name) then Some(BadRequest)
      else if list.customers.None? then Some(ServerError(Unhandled))  // Exists on a null list
      else if HasId(list.customers.value, c.id) || c.id <= 0 then Some(BadRequest)
      else None
  }

  /** What `Post` answers and what the data file holds afterwards: a stopped
      request leaves the file alone, and so does a failed save, which the
      catch block turns into a 500. */
  function PostEffect(file: FileState, c: Customer, writeSucceeds: bool): (e: (Response, FileState))
    ensures PostGuard(ReadFrom(file), c).Some? ==> e == (PostGuard(ReadFrom(file), c).value, file)
    ensures PostGuard(ReadFrom(file), c).None? && !writeSucceeds ==> e == (ServerError(Unhandled), file)
    ensures e.0.Created? <==> PostGuard(ReadFrom(file), c).None? && writeSucceeds
    ensures e.0.Created? ==> e.0 == Created(c.id, c) && e.1.Doc? && e.1.list.customers.Some?
    ensures !e.0.Created? ==> e.1 == file
  {
    match PostGuard(ReadFrom(file), c)
    case Some(early) => (early, file)
    case None =>
      match Save(file, c, writeSucceeds)
      case Success(next) => (Created(c.id, c), next)
      case Failure(_) => (ServerError(Unhandled), file)
  }

  /** A blank name is a 400 whatever the id, once a document was read. */
  lemma PostRejectsBlankName(file: FileState, c: Customer, writeSucceeds: bool)
    requires file.Missing? || file.Doc?
    requires IsNullOrWhiteSpace(c.name)
    ensures PostEffect(file, c, writeSucceeds) == (BadRequest, file)
  {
  }

  /** A non-positive or taken id is a 400, whatever the name, once the name
      passed its guard and the list is not null. */
  lemma PostRejectsUnusableId(list: seq<Customer>, c: Customer, writeSucceeds: bool)
    requires !IsNullOrWhiteSpace(c.name)
    requires c.id <= 0 || HasId(list, c.id)
    ensures PostEffect(Doc(CustomerList(Some(list))), c, writeSucceeds) ==
              (BadRequest, Doc(CustomerList(Some(list))))
  {
  }

  /** Only a 201 changes the data file; a 201 appends the candidate to the
      list, keeps ids unique, and `Get(id)` then returns the candidate. */
  lemma PostCreates(file: FileState, c: Customer, writeSucceeds: bool)
    ensures var e := PostEffect(file, c, writeSucceeds);
              !e.0.Created? ==> e.1 == file
    ensures var e := PostEffect(file, c, writeSucceeds);
              PostGuard(ReadFrom(file), c).None? && !writeSucceeds ==> e == (ServerError(Unhandled), file)
    ensures var e := PostEffect(file, c, writeSucceeds);
              e.0.Created? <==> PostGuard(ReadFrom(file), c).None? && writeSucceeds
    ensures var e := PostEffect(file, c, writeSucceeds);
              e.0.Created? ==>
                && e.0 == Created(c.id, c)
                && e.1 == Doc(CustomerList(Some(file.list.customers.value + [c])))
                && GetByIdResponse(ReadFromById(e.1, c.id)) == OkCustomer(c)
                && (UniqueIds(file.list.customers.value) ==> UniqueIds(file.list.customers.value + [c]))
  {
    if PostGuard(ReadFrom(file), c).None? && writeSucceeds {
      var cs := file.list.customers.value;
      UpsertAppendsAbsent(cs, c);
      assert Upsert(cs, c) == cs + [c];
      SaveThenReadById(file, c, writeSucceeds);
      if UniqueIds(cs) {
        UpsertKeepsIdsUnique(cs, c);
      }
    }
  }

  // ----- Put(int id, string name) -----

  /** The guards of `Put` in source order, on what `ReadFrom` gave and on the
      already encoded name: `Some` is the early response, `None` means "save". */
  function PutGuard(read: Result<Option<CustomerList>, Exception>, id: Int32, encodedName: Option<string>): (g: Option<Response>)
    ensures g.None? <==>
              read.Success? && read.value.Some? && read.value.value.customers.Some? &&
              !IsNullOrWhiteSpace(encodedName) && HasId(read.value.value.customers.value, id)
    ensures g.Some? ==> g.value.ServerError? || g.value.BadRequest? || g.value.NotFound?
    ensures read.Failure? ==> g == Some(ServerError(Unhandled))
    ensures read == Success(None) ==> g == Some(ServerError(DatabaseNull))
    ensures read.Success? && read.value.Some? && IsNullOrWhiteSpace(encodedName) ==> g == Some(BadRequest)
    ensures read.Success? && read.value.Some? && !IsNullOrWhiteSpace(encodedName) &&
            read.value.value.customers.None? ==>
              g == Some(ServerError(Unhandled))
    ensures read.Success? && read.value.Some? && !IsNullOrWhiteSpace(encodedName) &&
            read.value.value.customers.Some? && !HasId(read.value.value.customers.value, id) ==>
              g == Some(NotFound)
  {
    match read
    case Failure(_) => Some(ServerError(Unhandled))
    case Success(None) => Some(ServerError(DatabaseNull))
    case Success(Some(list)) =>
      if IsNullOrWhiteSpace(encodedName) then Some(BadRequest)
      else if list.customers.None? then Some(ServerError(Unhandled))  // Exists on a null list
      else if !HasId(list.customers.value, id) then Some(NotFound)
      else None
  }

  /** What `Put` answers and what the data file holds afterwards: a stopped
      request leaves the file alone, and so does a save that throws (a failed
      write, or the store's own id check), which becomes a 500. */
  function PutEffect(file: FileState, id: Int32, encodedName: Option<string>, writeSucceeds: bool): (e: (Response, FileState))
    ensures PutGuard(ReadFrom(file), id, encodedName).Some? ==>
              e == (PutGuard(ReadFrom(file), id, encodedName).value, file)
    ensures PutGuard(ReadFrom(file), id, encodedName).None? && !(writeSucceeds && id > 0) ==>
              e == (ServerError(Unhandled), file)
    ensures e.0.OkCustomer? <==> PutGuard(ReadFrom(file), id, encodedName).None? && writeSucceeds && id > 0
    ensures e.0.OkCustomer? ==> e.0 == OkCustomer(Customer(id, encodedName)) && e.1.Doc?
    ensures !e.0.OkCustomer? ==> e.1 == file
  {
    match PutGuard(ReadFrom(file), id, encodedName)
    case Some(early) => (early, file)
    case None =>
      match Save(file, Customer(id, encodedName), writeSucceeds)
      case Success(next) => (OkCustomer(Customer(id, encodedName)), next)
      case Failure(_) => (ServerError(Unhandled), file)
  }

  /** A blank encoded name is a 400 before existence is looked at. */
  lemma PutRejectsBlankName(file: FileState, id: Int32, encodedName: Option<string>, writeSucceeds: bool)
    requires file.Missing? || file.Doc?
    requires IsNullOrWhiteSpace(encodedName)
    ensures PutEffect(file, id, encodedName, writeSucceeds) == (BadRequest, file)
  {
  }

  /** `Put` only ever replaces: the number of records never changes, only a
      200 changes the file, and a 200 overwrites the first record with the id
      in place, keeps ids unique, and `Get(id)` then returns the new record. */
  lemma PutReplaces(file: FileState, id: Int32, encodedName: Option<string>, writeSucceeds: bool)
    ensures var e := PutEffect(file, id, encodedName, writeSucceeds);
              e.1 == file ||
              (file.Doc? && file.list.customers.Some? && e.1.Doc? && e.1.list.customers.Some? &&
               |e.1.list.customers.value| == |file.list.customers.value|)
    ensures var e := PutEffect(file, id, encodedName, writeSucceeds);
              !e.0.OkCustomer? ==> e.1 == file
    ensures var e := PutEffect(file, id, encodedName, writeSucceeds);
              PutGuard(ReadFrom(file), id, encodedName).None? && !writeSucceeds ==>
                e == (ServerError(Unhandled), file)
    ensures var e := PutEffect(file, id, encodedName, writeSucceeds);
              e.0.OkCustomer? ==> GetByIdResponse(ReadFromById(e.1, id)) == OkCustomer(Customer(id, encodedName))
    ensures var e := PutEffect(file, id, encodedName, writeSucceeds);
              e.0.OkCustomer? ==>
                && file.Doc? && file.list.customers.Some?
                && FirstWithId(file.list.customers.value, id).Some?
                && e.1.Doc? && e.1.list.customers.Some?
                && var cs := file.list.customers.value;
                   var next := e.1.list.customers.value;
                   var i := FirstWithId(cs, id).value;
                   && |next| == |cs|
                   && next[i] == Customer(id, encodedName)
                   && (forall j :: 0 <= j < |cs| && j != i ==> next[j] == cs[j])
                   && (UniqueIds(cs) ==> UniqueIds(next))
  {
    var c := Customer(id, encodedName);
    if PutGuard(ReadFrom(file), id, encodedName).None? && Save(file, c, writeSucceeds).Success? {
      var cs := file.list.customers.value;
      var i := FirstWithId(cs, id).value;
      UpsertReplacesFirst(cs, c, i);
      SaveThenReadById(file, c, writeSucceeds);
      if UniqueIds(cs) {
        UpsertKeepsIdsUnique(cs, c);
      }
    }
  }

  /** Repeating an update that succeeded answers the same and leaves the file
      as the first one left it. */
  lemma PutIdempotent(file: FileState, id: Int32, encodedName: Option<string>)
    requires PutEffect(file, id, encodedName, true).0.OkCustomer?
    ensures PutEffect(PutEffect(file, id, encodedName, true).1, id, encodedName, true) ==
              PutEffect(file, id, encodedName, true)
  {
    var c := Customer(id, encodedName);
    var cs := file.list.customers.value;
    var i := FirstWithId(cs, id).value;
    UpsertReplacesFirst(cs, c, i);
    var next := Upsert(cs, c);
    assert HasId(next, id) by { assert next[i].id == id; }
    UpsertReplacesFirst(next, c, i);
    assert Upsert(next, c) == next;
  }

  /** A non-positive id never gives a 200 and never changes the file. On a
      document with a non-null list and a non-blank name it is a 404 when no
      record carries it; when one does, the store's own id check throws and
      the answer is a 500. */
  lemma PutNonPositiveId(file: FileState, id: Int32, encodedName: Option<string>, writeSucceeds: bool)
    requires id <= 0
    ensures !PutEffect(file, id, encodedName, writeSucceeds).0.OkCustomer?
    ensures PutEffect(file, id, encodedName, writeSucceeds).1 == file
    ensures file.Doc? && file.list.customers.Some? && !IsNullOrWhiteSpace(encodedName) &&
            !HasId(file.list.customers.value, id) ==>
              PutEffect(file, id, encodedName, writeSucceeds).0 == NotFound
    ensures file.Doc? && file.list.customers.Some? && !IsNullOrWhiteSpace(encodedName) &&
            HasId(file.list.customers.value, id) ==>
              PutEffect(file, id, encodedName, writeSucceeds).0 == ServerError(Unhandled)
  {
  }

  /** The controller object. `customersList` is its public `CustomersList`
      property, which `Get`, `Post` and `Put` overwrite with what they read. */
  class CustomerController {
    const store: JsonFileHelper
    var customersList: Option<CustomerList>

    constructor (store: JsonFileHelper)
      ensures this.store == store && customersList == None
    {
      this.store := store;
      customersList := None;
    }

    method Get() returns (r: Response)
      modifies this
      ensures r == ListResponse(ReadFrom(store.file))
      ensures ReadFrom(store.file).Success? ==> customersList == ReadFrom(store.file).value
      ensures ReadFrom(store.file).Failure? ==> customersList == old(customersList)
    {
      var read := ReadFrom(store.file);
      if read.Failure? {
        return ServerError(Unhandled);
      }
      customersList := read.value;
      if customersList.None? {
        return ServerError(DatabaseNull);
      }
      if customersList.value.customers.None? {
        return ServerError(Unhandled);  // Count on a null list
      }
      var customers := customersList.value.customers.value;
      if |customers| == 0 {
        return NotFound;
      }
      r := OkList(SortById(customers));
    }

    method GetById(id: Int32) returns (r: Response)
      ensures r == GetByIdResponse(ReadFromById(store.file, id))
    {
      r := GetByIdResponse(ReadFromById(store.file, id));
    }

    /** `writeSucceeds` is passed on to the store's final write. */
    method Post(newCustomer: Customer, writeSucceeds: bool) returns (r: Response)
      modifies this, store
      ensures (r, store.file) == PostEffect(old(store.file), newCustomer, writeSucceeds)
      ensures ReadFrom(old(store.file)).Success? ==> customersList == ReadFrom(old(store.file)).value
      ensures ReadFrom(old(store.file)).Failure? ==> customersList == old(customersList)
    {
      var read := ReadFrom(store.file);
      if read.Failure? {
        return ServerError(Unhandled);
      }
      customersList := read.value;
      if customersList.None? {
        return ServerError(DatabaseNull);
      }
      if IsNullOrWhiteSpace(newCustomer.name) {
        return BadRequest;
      }
      if customersList.value.customers.None? {
        return ServerError(Unhandled);  // Exists on a null list
      }
      if HasId(customersList.value.customers.value, newCustomer.id) || newCustomer.id <= 0 {
        return BadRequest;
      }
      var saved := store.SaveChanges(newCustomer, writeSucceeds);
      if saved.Fail? {
        return ServerError(Unhandled);
      }
      r := Created(newCustomer.id, newCustomer);
    }

    /** `htmlEncode` stands for `HttpUtility.HtmlEncode`, applied to the name
        before anything else; `writeSucceeds` is passed on to the store. */
    method Put(id: Int32, customerName: Option<string>, htmlEncode: Option<string> -> Option<string>, writeSucceeds: bool)
      returns (r: Response)
      modifies this, store
      ensures (r, store.file) == PutEffect(old(store.file), id, htmlEncode(customerName), writeSucceeds)
      ensures ReadFrom(old(store.file)).Success? ==> customersList == ReadFrom(old(store.file)).value
      ensures ReadFrom(old(store.file)).Failure? ==> customersList == old(customersList)
    {
      var existingCustomer := Customer(id, htmlEncode(customerName));
      var read := ReadFrom(store.file);
      if read.Failure? {
        return ServerError(Unhandled);
      }
      customersList := read.value;
      if customersList.None? {
        return ServerError(DatabaseNull);
      }
      if IsNullOrWhiteSpace(existingCustomer.name) {
        return BadRequest;
      }
      if customersList.value.customers.None? {
        return ServerError(Unhandled);  // Exists on a null list
      }
      if !HasId(customersList.value.customers.value, id) {
        return NotFound;
      }
      var saved := store.SaveChanges(existingCustomer, writeSucceeds);
      if saved.Fail? {
        return ServerError(Unhandled);
      }
      r := OkCustomer(existingCustomer);
    }
  }

  function TwoCustomers(): seq<Customer> {
    [Customer(1, Some("Richard")), Customer(2, Some("Mike"))]
  }

  /** A client on the two-record store of the controller tests: an unknown
      id, then a create. */
  method ScenarioCreate() {
    var store := new JsonFileHelper(Doc(CustomerList(Some(TwoCustomers()))));
    var controller := new CustomerController(store);

    var r := controller.GetById(42);
    assert r == OkCustomer(DefaultCustomer());  // a 200, not a 404

    var dawn := Customer(3, Some("Dawn"));
    assert !IsNullOrWhiteSpace(dawn.name) by { assert dawn.name.value[0] == 'D'; }
    var before := store.file;
    r := controller.Post(dawn, true);
    assert r == Created(3, dawn);
    PostCreates(before, dawn, true);
    assert store.file == Doc(CustomerList(Some(TwoCustomers() + [dawn])));
  }

  /** A client listing the store that the create above leaves behind. */
  method ScenarioList() {
    var cs := TwoCustomers() + [Customer(3, Some("Dawn"))];
    var store := new JsonFileHelper(Doc(CustomerList(Some(cs))));
    var controller := new CustomerController(store);
    SortByIdKeepsSorted(cs);
    var r := controller.Get();
    assert r == OkList(cs);
  }

  /** A client on the same store: a taken id is refused, an update is read
      back. The encoder is only assumed to leave "Tom" alone. */
  method ScenarioUpdate(htmlEncode: Option<string> -> Option<string>)
    requires htmlEncode(Some("Tom")) == Some("Tom")
  {
    var store := new JsonFileHelper(Doc(CustomerList(Some(TwoCustomers()))));
    var controller := new CustomerController(store);

    var taken := Customer(2, Some("X"));
    assert !IsNullOrWhiteSpace(taken.name) by { assert taken.name.value[0] == 'X'; }
    assert HasId(TwoCustomers(), 2) by { assert TwoCustomers()[1].id == 2; }
    var r := controller.Post(taken, true);
    assert r == BadRequest;

    assert !IsNullOrWhiteSpace(Some("Tom")) by { assert "Tom"[0] == 'T'; }
    r := controller.Put(2, Some("Tom"), htmlEncode, true);
    assert r == OkCustomer(Customer(2, Some("Tom")));
    PutReplaces(Doc(CustomerList(Some(TwoCustomers()))), 2, Some("Tom"), true);
    r := controller.GetById(2);
    assert r == OkCustomer(Customer(2, Some("Tom")));
  }

  /** A client on the same store: the update paths that answer 404 and 400. */
  method ScenarioUpdateRejected(htmlEncode: Option<string> -> Option<string>)
    requires htmlEncode(Some("Nobody")) == Some("Nobody")
    requires htmlEncode(Some("Tom")) == Some("Tom")
    requires htmlEncode(Some("")) == Some("")
  {
    var store := new JsonFileHelper(Doc(CustomerList(Some(TwoCustomers()))));
    var controller := new CustomerController(store);

    assert !IsNullOrWhiteSpace(Some("Nobody")) by { assert "Nobody"[0] == 'N'; }
    var r := controller.Put(99, Some("Nobody"), htmlEncode, true);
    assert r == NotFound;

    r := controller.Put(2, Some(""), htmlEncode, true);
    assert r == BadRequest;

    assert !IsNullOrWhiteSpace(Some("Tom")) by { assert "Tom"[0] == 'T'; }
    r := controller.Put(-3, Some("Tom"), htmlEncode, true);
    assert r == NotFound;
  }
}
