/** The customer repository: a list of customers changed in place. */
module Repository {
  import opened BankErrors
  import opened Accounts
  import opened Customers
  import opened Directory

  class CustomerRepository {
    var customers: seq<Customer>

    constructor ()
      ensures customers == []
    {
      customers := [];
    }

    /** `hasCustomerId`: a scan for the id. */
    method HasCustomerId(id: int) returns (b: bool)
      ensures b <==> HasId(customers, id)
    {
      var i := 0;
      while i < |customers|
        invariant i <= |customers|
        invariant forall j :: 0 <= j < i ==> customers[j].custId != id
      {
        if customers[i].custId == id {
          return true;
        }
        i := i + 1;
      }
      return false;
    }

    /** `hasAccountNo`: a scan for the account number. */
    method HasAccountNo(accNo: int) returns (b: bool)
      ensures b <==> HasAccNo(customers, accNo)
    {
      var i := 0;
      while i < |customers|
        invariant i <= |customers|
        invariant forall j :: 0 <= j < i ==> customers[j].account.accNo != accNo
      {
        if customers[i].account.accNo == accNo {
          return true;
        }
        i := i + 1;
      }
      return false;
    }

    /** `add`: a known id or account number fails with DuplicateAccount and
        leaves the list alone; otherwise the customer is appended, which keeps
        ids and account numbers distinct. */
    method Add(customer: Customer) returns (o: Outcome)
      modifies this
      ensures o.Fail? <==> HasId(old(customers), customer.custId) || HasAccNo(old(customers), customer.account.accNo)
      ensures o.Fail? ==> o.error == DuplicateAccount(customer.account.accNo) && customers == old(customers)
      ensures o.Pass? ==> customers == old(customers) + [customer]
      ensures Unique(old(customers)) ==> Unique(customers)
    {
      var dupId := HasCustomerId(customer.custId);
      var dupNo := false;
      if !dupId {
        dupNo := HasAccountNo(customer.account.accNo);
      }
      if dupId || dupNo {
        return Fail(DuplicateAccount(customer.account.accNo));
      }
      if Unique(customers) {
        AppendKeepsUnique(customers, customer);
      }
      customers := customers + [customer];
      o := Pass;
    }

    /** `getAll`: a copy of the list (a value here, so no later change reaches it). */
    method GetAll() returns (r: seq<Customer>)
      ensures r == customers
    {
      r := customers;
    }

    /** `findById`: the first customer with the id, or AccountNotFound. */
    method FindById(id: int) returns (r: Result<Customer>)
      ensures r.Failure? <==> !HasId(customers, id)
      ensures r.Failure? ==> r.error == AccountNotFound(id)
      ensures r.Success? ==> r.value.custId == id && r.value == customers[FirstIndex(customers, id)]
    {
      var i := IndexOfId(customers, id);
      if i == |customers| {
        return Failure(AccountNotFound(id));
      }
      return Success(customers[i]);
    }

    /** `update`: remove every entry with the customer's id, then append the customer. */
    method Update(customer: Customer)
      modifies this
      ensures customers == Upsert(old(customers), customer)
    {
      customers := WithoutId(customers, customer.custId) + [customer];
    }

    /** `delete`: an unknown id fails with AccountNotFound; a customer whose
        balance is positive is kept and the answer is false; otherwise the
        first entry with the id is removed and the answer is true. An account
        that keeps its invariant holds at least MIN_BALANCE, so its customer
        is never removed. */
    method Delete(id: int) returns (r: Result<bool>)
      modifies this
      ensures !HasId(old(customers), id) ==> r == Failure(AccountNotFound(id)) && customers == old(customers)
      ensures HasId(old(customers), id) ==>
        var k := FirstIndex(old(customers), id);
        if old(customers)[k].account.balance > 0.0
        then r == Success(false) && customers == old(customers)
        else r == Success(true) && customers == RemoveAt(old(customers), k)
      ensures Unique(old(customers)) ==> Unique(customers)
      ensures HasId(old(customers), id) && (exists n :: old(customers)[FirstIndex(old(customers), id)].account.Valid(n)) ==>
        r == Success(false) && customers == old(customers)
    {
      var i := IndexOfId(customers, id);
      if i == |customers| {
        return Failure(AccountNotFound(id));
      }
      if customers[i].account.balance > 0.0 {
        return Success(false);
      }
      // `remove(cust)` finds the first entry equal to cust, that is with its id: index i
      if Unique(customers) {
        RemoveAtKeepsUnique(customers, i);
      }
      customers := RemoveAt(customers, i);
      return Success(true);
    }
  }
}
