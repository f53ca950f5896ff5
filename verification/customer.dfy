/** The customer entity: an id and an account fixed at construction, a name
    and an address its setters replace. */
module Customers {
  import opened BankErrors
  import opened Text
  import opened Addresses
  import opened Accounts

  /** The constructor's checks, in order: a positive id, a non-blank name, an
      account, an address. */
  function CheckCustomer(custId: int, custName: Option<string>, account: Account?, address: Option<Address>): (r: Outcome)
    ensures r.Pass? <==>
      custId > 0 && custName.Some? && !IsBlank(custName.value) && account != null && address.Some?
    ensures custId <= 0 ==> r == Fail(IllegalArgument(NonPositiveCustomerId(custId)))
    ensures custId > 0 && (custName.None? || IsBlank(custName.value)) ==> r == Fail(IllegalArgument(BlankName))
  {
    if custId <= 0 then Fail(IllegalArgument(NonPositiveCustomerId(custId)))
    else if custName.None? || IsBlank(custName.value) then Fail(IllegalArgument(BlankName))
    else if account == null then Fail(IllegalArgument(MissingAccount))
    else if address.None? then Fail(IllegalArgument(MissingAddress))
    else Pass
  }

  /** What `setCustName` accepts: a non-null, non-blank name whose length in
      UTF-16 code units, before trimming, lies in [2, 50]. */
  predicate AcceptableName(name: Option<string>) {
    name.Some? && !IsBlank(name.value) && 2 <= JavaLength(name.value) <= 50
  }

  /** A single char above U+FFFF is two code units long, so it is an acceptable name. */
  lemma SurrogatePairNameAccepted()
    ensures AcceptableName(Some("\U{1F600}"))
  {
    assert Utf16Units("\U{1F600}") == Utf16('\U{1F600}');
  }

  class Customer {
    const custId: int
    var custName: string
    const account: Account
    var address: Address

    /** A constructed customer has a positive id and a non-empty, trimmed name. */
    ghost predicate Valid()
      reads this
    {
      custId > 0 && IsTrimmed(custName)
    }

    constructor (custId: int, custName: string, account: Account, address: Address)
      ensures this.custId == custId && this.custName == custName
      ensures this.account == account && this.address == address
    {
      this.custId := custId;
      this.custName := custName;
      this.account := account;
      this.address := address;
    }

    /** `new Customer(...)`: fails as CheckCustomer says; otherwise a fresh
        customer holding the trimmed name. */
    static method Create(custId: int, custName: Option<string>, account: Account?, address: Option<Address>)
      returns (r: Result<Customer>)
      ensures r.Failure? <==> CheckCustomer(custId, custName, account, address).Fail?
      ensures r.Failure? ==> r.error == CheckCustomer(custId, custName, account, address).error
      ensures r.Success? ==>
        && fresh(r.value) && r.value.Valid()
        && r.value.custId == custId && r.value.custName == Trim(custName.value)
        && r.value.account == account && r.value.address == address.value
    {
      var check := CheckCustomer(custId, custName, account, address);
      if check.Fail? {
        return Failure(check.error);
      }
      TrimIsSlice(custName.value);
      var c := new Customer(custId, Trim(custName.value), account, address.value);
      return Success(c);
    }

    /** `setCustName`: on an acceptable name store it trimmed; otherwise fail
        and change nothing. The id, account and address never change. */
    method SetCustName(name: Option<string>) returns (o: Outcome)
      requires Valid()
      modifies this
      ensures Valid() && address == old(address)
      ensures o.Fail? <==> !AcceptableName(name)
      ensures o.Fail? ==> o.error == IllegalArgument(InvalidName) && custName == old(custName)
      ensures o.Pass? ==> custName == Trim(name.value)
    {
      if name.None? || IsBlank(name.value) || JavaLength(name.value) < 2 || JavaLength(name.value) > 50 {
        return Fail(IllegalArgument(InvalidName));
      }
      TrimIsSlice(name.value);
      custName := Trim(name.value);
      o := Pass;
    }

    /** `setCustAddr`: a null address fails; otherwise only the address is replaced. */
    method SetCustAddr(addr: Option<Address>) returns (o: Outcome)
      requires Valid()
      modifies this
      ensures Valid() && custName == old(custName)
      ensures o.Fail? <==> addr.None?
      ensures o.Fail? ==> o.error == IllegalArgument(MissingAddress) && address == old(address)
      ensures o.Pass? ==> address == addr.value
    {
      if addr.None? {
        return Fail(IllegalArgument(MissingAddress));
      }
      address := addr.value;
      o := Pass;
    }
  }

  /** `equals`: the same object, or the same id; so, exactly the same id. */
  function SameCustomer(a: Customer, b: Customer): (r: bool)
    ensures r <==> a.custId == b.custId
  {
    a == b || a.custId == b.custId
  }

  /** `hashCode` is the id. */
  function HashCode(c: Customer): int {
    c.custId
  }

  /** Equal customers have equal hash codes, and equality is an equivalence. */
  lemma HashAgreesWithSameCustomer(a: Customer, b: Customer, c: Customer)
    ensures SameCustomer(a, b) ==> HashCode(a) == HashCode(b)
    ensures SameCustomer(a, a)
    ensures SameCustomer(a, b) ==> SameCustomer(b, a)
    ensures SameCustomer(a, b) && SameCustomer(b, c) ==> SameCustomer(a, c)
  {
  }
}
