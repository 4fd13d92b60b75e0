/** The file-backed record store (Data/JsonFileHelper.cs): the whole customer
    document is read from one data file, changed in memory and written back. */
module Store {
  import opened Wrappers
  import opened Models

  /** What the data file holds, as far as reading it back can tell: no file, a
      file that cannot be read or parsed, the JSON literal `null`, or a
      document. Serialising a document and reading it back gives the same
      document, so the written value and the parsed value are one. */
  datatype FileState = Missing | Unreadable | NullDoc | Doc(list: CustomerList)

  /** The exceptions that the store's code paths raise. */
  datatype Exception =
    | ArgumentException          // the invalid id guard
    | ArgumentNullException      // a LINQ operator applied to a null list
    | NullReferenceException     // a member access on a null reference
    | JsonException              // a read or parse failure of the data file
    | IOException                // a failed write of the data file
    | InvalidOperationException  // what SaveChanges re-throws for all of them

  // ----- lookups on the customer sequence -----

  /** The index of the first customer whose id is `id`, if any. */
  function FirstWithId(cs: seq<Customer>, id: int): (r: Option<nat>)
    ensures r.Some? ==> r.value < |cs| && cs[r.value].id == id
    ensures r.Some? ==> forall j :: 0 <= j < r.value ==> cs[j].id != id
    ensures r.None? <==> forall j :: 0 <= j < |cs| ==> cs[j].id != id
  {
    if cs == [] then None
    else if cs[0].id == id then Some(0)
    else match FirstWithId(cs[1..], id)
      case None => None
      case Some(k) => Some(k + 1)
  }

  /** `List.Exists(r => r.Id == id)`. */
  predicate HasId(cs: seq<Customer>, id: int) {
    exists j :: 0 <= j < |cs| && cs[j].id == id
  }

  /** No two records share an id: the collection invariant. */
  predicate UniqueIds(cs: seq<Customer>) {
    forall i, j :: 0 <= i < j < |cs| ==> cs[i].id != cs[j].id
  }

  /** The upsert that SaveChanges applies to a non-null list: replace the first
      record with the same id, or append when there is none. */
  function Upsert(cs: seq<Customer>, c: Customer): seq<Customer> {
    match FirstWithId(cs, c.id)
    case None => cs + [c]
    case Some(i) => cs[i := c]
  }

  /** Saving an absent id appends it and leaves every earlier record alone. */
  lemma UpsertAppendsAbsent(cs: seq<Customer>, c: Customer)
    requires !HasId(cs, c.id)
    ensures |Upsert(cs, c)| == |cs| + 1
    ensures Upsert(cs, c)[..|cs|] == cs && Upsert(cs, c)[|cs|] == c
  {
  }

  /** Saving a present id overwrites the first record with that id in place
      and leaves every other position alone. */
  lemma UpsertReplacesFirst(cs: seq<Customer>, c: Customer, i: nat)
    requires i < |cs| && cs[i].id == c.id
    requires forall j :: 0 <= j < i ==> cs[j].id != c.id
    ensures |Upsert(cs, c)| == |cs|
    ensures Upsert(cs, c)[i] == c
    ensures forall j :: 0 <= j < |cs| && j != i ==> Upsert(cs, c)[j] == cs[j]
  {
  }

  /** Upserting keeps ids unique, and afterwards the saved record is the only
      one carrying its id. */
  lemma UpsertKeepsIdsUnique(cs: seq<Customer>, c: Customer)
    requires UniqueIds(cs)
    ensures UniqueIds(Upsert(cs, c))
    ensures HasId(Upsert(cs, c), c.id)
    ensures forall k :: 0 <= k < |Upsert(cs, c)| && Upsert(cs, c)[k].id == c.id ==> Upsert(cs, c)[k] == c
  {
    var r := Upsert(cs, c);
    match FirstWithId(cs, c.id)
    case None =>
      assert r[|cs|] == c;
    case Some(i) =>
      assert r[i] == c;
  }

  /** The ids after an upsert are the ids before it plus the saved one. */
  lemma UpsertIds(cs: seq<Customer>, c: Customer, id: int)
    ensures HasId(Upsert(cs, c), id) <==> HasId(cs, id) || id == c.id
  {
    var r := Upsert(cs, c);
    match FirstWithId(cs, c.id)
    case None =>
      if HasId(cs, id) {
        var j :| 0 <= j < |cs| && cs[j].id == id;
        assert r[j] == cs[j];
      }
      assert r[|cs|] == c;
    case Some(i) =>
      assert r[i] == c;
      if HasId(cs, id) {
        var j :| 0 <= j < |cs| && cs[j].id == id;
        if j == i { assert r[i].id == id; } else { assert r[j] == cs[j]; }
      }
      if HasId(r, id) {
        var j :| 0 <= j < |r| && r[j].id == id;
        if j != i { assert cs[j] == r[j]; } else { assert cs[i].id == c.id; }
      }
  }

  // ----- reads -----

  /** `ReadFrom`: the stored document (which may be null) when the file
      exists, otherwise a fresh `CustomerList` whose list is null. */
  function ReadFrom(file: FileState): (r: Result<Option<CustomerList>, Exception>)
    ensures r.Failure? <==> file.Unreadable?
    ensures file.Missing? ==> r == Success(Some(CustomerList(None)))
    ensures file.NullDoc? ==> r == Success(None)
    ensures file.Doc? ==> r == Success(Some(file.list))
  {
    match file
    case Missing => Success(Some(CustomerList(None)))
    case Unreadable => Failure(JsonException)
    case NullDoc => Success(None)
    case Doc(list) => Success(Some(list))
  }

  /** `ReadFromById`: the first record with the id, or a default customer when
      none has it; a null document or a null list makes it throw. The result
      type is nullable, as the interface declares, but it is never null. */
  function ReadFromById(file: FileState, id: int): (r: Result<Option<Customer>, Exception>)
    ensures r.Success? <==> file.Doc? && file.list.customers.Some?
    ensures r.Success? ==> r.value.Some?
    ensures r.Success? && HasId(file.list.customers.value, id) ==>
              r.value.value.id == id &&
              exists k :: 0 <= k < |file.list.customers.value| && file.list.customers.value[k] == r.value.value &&
                forall j :: 0 <= j < k ==> file.list.customers.value[j].id != id
    ensures r.Success? && !HasId(file.list.customers.value, id) ==> r.value.value == DefaultCustomer()
  {
    match ReadFrom(file)
    case Failure(e) => Failure(e)
    case Success(None) => Failure(NullReferenceException)
    case Success(Some(list)) =>
      if list.customers.None? then Failure(ArgumentNullException)
      else
        var cs := list.customers.value;
        match FirstWithId(cs, id)
        case Some(k) => Success(Some(cs[k]))
        case None => Success(Some(DefaultCustomer()))
  }

  // ----- SaveChanges -----

  /** What `SaveChanges` writes, or the exception its body raises before the
      catch block wraps it. */
  function Save(file: FileState, c: Customer, writeSucceeds: bool): Result<FileState, Exception> {
    match file
    case Missing => Failure(NullReferenceException)
    case Unreadable => Failure(JsonException)
    case NullDoc => if writeSucceeds then Success(NullDoc) else Failure(IOException)
    case Doc(list) =>
      if c.id <= 0 then Failure(ArgumentException)
      else if list.customers.None? then Failure(ArgumentNullException)
      else if !writeSucceeds then Failure(IOException)
      else Success(Doc(CustomerList(Some(Upsert(list.customers.value, c)))))
  }

  /** Saving keeps the stored ids unique, and the saved record is the only one
      with its id. */
  lemma SaveKeepsIdsUnique(file: FileState, c: Customer, writeSucceeds: bool)
    requires file.Doc? && file.list.customers.Some? && UniqueIds(file.list.customers.value)
    requires Save(file, c, writeSucceeds).Success?
    ensures Save(file, c, writeSucceeds).value.Doc?
    ensures Save(file, c, writeSucceeds).value.list.customers.Some?
    ensures UniqueIds(Save(file, c, writeSucceeds).value.list.customers.value)
    ensures forall k :: 0 <= k < |Save(file, c, writeSucceeds).value.list.customers.value| &&
                        Save(file, c, writeSucceeds).value.list.customers.value[k].id == c.id ==>
                          Save(file, c, writeSucceeds).value.list.customers.value[k] == c
  {
    UpsertKeepsIdsUnique(file.list.customers.value, c);
  }

  /** Round trip: after a successful save into a document, looking the id up
      gives back the saved record. */
  lemma SaveThenReadById(file: FileState, c: Customer, writeSucceeds: bool)
    requires file.Doc? && Save(file, c, writeSucceeds).Success?
    ensures ReadFromById(Save(file, c, writeSucceeds).value, c.id) == Success(Some(c))
  {
    var cs := file.list.customers.value;
    var r := Upsert(cs, c);
    match FirstWithId(cs, c.id)
    case None =>
      assert r[|cs|] == c;
    case Some(i) =>
      assert r[i] == c;
  }

  /** The class behind the store. Its one mutable field stands for the
      contents of the data file, which only this object reads and writes. */
  class JsonFileHelper {
    const dataFile: string
    var file: FileState

    constructor (initial: FileState)
      ensures dataFile == "database.json" && file == initial
    {
      dataFile := "database.json";
      file := initial;
    }

    /** Upsert `customer` into the stored document and write the document back.
        `writeSucceeds` is the environment's answer to the final write. Every
        failure leaves the file alone and surfaces as one
        InvalidOperationException. */
    method SaveChanges(customer: Customer, writeSucceeds: bool) returns (r: Outcome<Exception>)
      modifies this
      ensures r.Pass? <==> Save(old(file), customer, writeSucceeds).Success?
      ensures r.Pass? ==> file == Save(old(file), customer, writeSucceeds).value
      ensures r.Fail? ==> r.error == InvalidOperationException && file == old(file)
      ensures old(file).Missing? ==> r.Fail? && file == Missing
      ensures old(file).Doc? && customer.id <= 0 ==> r.Fail?
      ensures old(file).NullDoc? ==> (r.Pass? <==> writeSucceeds) && file == NullDoc
      ensures r.Pass? && old(file).Doc? ==> ReadFromById(file, customer.id) == Success(Some(customer))
    {
      var customerList: Option<CustomerList> := Some(CustomerList(None));
      if file != Missing {
        if file.Unreadable? {
          return Fail(InvalidOperationException);  // the JsonException, wrapped
        }
        customerList := if file.NullDoc? then None else Some(file.list);
        if customerList.Some? {
          if customer.id <= 0 {
            return Fail(InvalidOperationException);  // the ArgumentException, wrapped
          }
          if customerList.value.customers.None? {
            return Fail(InvalidOperationException);  // the ArgumentNullException, wrapped
          }
          var customers := customerList.value.customers.value;
          var found := FirstWithId(customers, customer.id);
          if found.None? {
            customers := customers + [customer];
          } else {
            customers := customers[found.value := customer];
          }
          customerList := Some(CustomerList(Some(customers)));
        }
      } else {
        // Adding to the null list of a fresh document.
        return Fail(InvalidOperationException);  // the NullReferenceException, wrapped
      }
      if !writeSucceeds {
        return Fail(InvalidOperationException);  // the IOException, wrapped
      }
      if old(file).Doc? {
        SaveThenReadById(old(file), customer, writeSucceeds);
      }
      file := if customerList.None? then NullDoc else Doc(customerList.value);
      r := Pass;
    }
  }
}
