/** The record types of the store (Models/Customer.cs, Models/CustomerList.cs)
    and the validation rule that the data annotations on `Customer.Name` state. */
module Models {
  import opened Wrappers

  /** The range of a C# `int`; ids are only compared, never computed with. */
  type Int32 = x: int | -0x8000_0000 <= x < 0x8000_0000

  /** A customer record; a null `Name` is `None`. */
  datatype Customer = Customer(id: Int32, name: Option<string>)

  /** The document stored in the data file; its `Customers` list has no
      initialiser, so it is `None` unless the document sets it. */
  datatype CustomerList = CustomerList(customers: Option<seq<Customer>>)

  /** `new Customer()`: every property at its default value. */
  function DefaultCustomer(): (c: Customer)
    ensures c.id == 0 && c.name.None?
  {
    Customer(0, None)
  }

  /** The sentinel meant to signal bad data. */
  function BadCustomer(): (c: Customer)
    ensures c.id == -1 && c.name == Some("Bad Customer")
  {
    Customer(-1, Some("Bad Customer"))
  }

  // ----- string.IsNullOrWhiteSpace -----

  /** `char.IsWhiteSpace`: the Unicode space, line and paragraph separators
      together with the control characters U+0009..U+000D and U+0085. */
  predicate IsWhiteSpace(ch: char) {
    || '\U{0009}' <= ch <= '\U{000D}'
    || ch == ' ' || ch == '\U{0085}' || ch == '\U{00A0}' || ch == '\U{1680}'
    || '\U{2000}' <= ch <= '\U{200A}'
    || ch == '\U{2028}' || ch == '\U{2029}' || ch == '\U{202F}' || ch == '\U{205F}'
    || ch == '\U{3000}'
  }

  /** `string.IsNullOrWhiteSpace`: null, empty, or white space only. */
  predicate IsNullOrWhiteSpace(s: Option<string>) {
    s.None? || forall i :: 0 <= i < |s.value| ==> IsWhiteSpace(s.value[i])
  }

  // ----- the annotations on Customer.Name -----

  predicate IsAsciiLetter(ch: char) {
    'a' <= ch <= 'z' || 'A' <= ch <= 'Z'
  }

  /** A whole-string match of `^[a-zA-Z]+$`. */
  predicate MatchesLettersPattern(s: string) {
    |s| >= 1 && forall i :: 0 <= i < |s| ==> IsAsciiLetter(s[i])
  }

  /** `[Required]` on a string: not null and, since empty strings are not
      allowed, not white space only. */
  predicate RequiredHolds(name: Option<string>) {
    name.Some? && !IsNullOrWhiteSpace(name)
  }

  /** `[RegularExpression]`: a null or empty value is accepted; anything else
      must match the pattern in full. */
  predicate RegularExpressionHolds(name: Option<string>) {
    name.None? || name.value == "" || MatchesLettersPattern(name.value)
  }

  /** `[MaxLength(50)]`: a null value is accepted. .NET counts UTF-16 code
      units where `|s|` counts characters; for the ASCII names the letters
      pattern admits, the two counts agree. */
  predicate MaxLengthHolds(name: Option<string>) {
    name.None? || |name.value| <= 50
  }

  /** The three annotations of `Customer.Name` taken together. */
  predicate IsValidName(name: Option<string>) {
    RequiredHolds(name) && RegularExpressionHolds(name) && MaxLengthHolds(name)
  }

  lemma LetterIsNotWhiteSpace(ch: char)
    requires IsAsciiLetter(ch)
    ensures !IsWhiteSpace(ch)
  {
  }

  /** A name is valid exactly when it is present, holds 1 to 50 characters and
      every character is an ASCII letter. */
  lemma ValidNameCharacterised(name: Option<string>)
    ensures IsValidName(name) <==>
              && name.Some?
              && 1 <= |name.value| <= 50
              && forall i :: 0 <= i < |name.value| ==> IsAsciiLetter(name.value[i])
  {
    if name.Some? && 1 <= |name.value| && forall i :: 0 <= i < |name.value| ==> IsAsciiLetter(name.value[i]) {
      LetterIsNotWhiteSpace(name.value[0]);
      assert !IsNullOrWhiteSpace(name);
    }
    if IsValidName(name) {
      assert name.value != "" by {
        if name.value == "" { assert IsNullOrWhiteSpace(name); }
      }
    }
  }

  /** A valid name is never rejected by the controllers' empty-name guard. */
  lemma ValidNameIsNotBlank(name: Option<string>)
    requires IsValidName(name)
    ensures !IsNullOrWhiteSpace(name)
    ensures |name.value| <= 50
  {
  }

  /** The sentinel fails both rules the store and the annotations apply: its
      id is not positive and its name holds a space. */
  lemma BadCustomerIsRejected()
    ensures BadCustomer().id <= 0
    ensures !IsValidName(BadCustomer().name)
  {
    var s := BadCustomer().name.value;
    assert s[3] == ' ' && !IsAsciiLetter(s[3]);
  }
}
