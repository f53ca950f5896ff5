/** The customer list both the repository and the service keep: first-match
    search, the uniqueness of ids and account numbers, and the list edits
    (`removeIf`, `remove`, append) they perform. */
module Directory {
  import opened Customers

  /** Some entry has this customer id (`anyMatch` on the id). */
  predicate HasId(cs: seq<Customer>, id: int) {
    exists i :: 0 <= i < |cs| && cs[i].custId == id
  }

  /** Some entry's account has this number (`anyMatch` on the account number). */
  predicate HasAccNo(cs: seq<Customer>, accNo: int) {
    exists i :: 0 <= i < |cs| && cs[i].account.accNo == accNo
  }

  /** No two entries share a customer id or an account number. */
  predicate Unique(cs: seq<Customer>) {
    forall i, j :: 0 <= i < j < |cs| ==>
      cs[i].custId != cs[j].custId && cs[i].account.accNo != cs[j].account.accNo
  }

  /** Distinct positions of a unique list hold distinct customers with distinct accounts. */
  lemma AccountsDistinct(cs: seq<Customer>, i: nat, j: nat)
    requires Unique(cs) && i < |cs| && j < |cs| && i != j
    ensures cs[i] != cs[j] && cs[i].account != cs[j].account
  {
    if i < j {
      assert cs[i].account.accNo != cs[j].account.accNo;
    } else {
      assert cs[j].account.accNo != cs[i].account.accNo;
    }
  }

  /** The position `filter(...).findFirst()` stops at: the first entry with
      the id, or |cs| when there is none. */
  function FirstIndex(cs: seq<Customer>, id: int): (r: nat)
    ensures r <= |cs|
    ensures forall j :: 0 <= j < r ==> cs[j].custId != id
    ensures r < |cs| ==> cs[r].custId == id
    ensures r < |cs| <==> HasId(cs, id)
    decreases |cs|
  {
    if cs == [] then 0
    else if cs[0].custId == id then 0
    else 1 + FirstIndex(cs[1..], id)
  }

  /** `removeIf(c -> c.getCustId() == id)`: drop every entry with the id, keeping the rest in order. */
  function WithoutId(cs: seq<Customer>, id: int): (r: seq<Customer>)
    ensures |r| <= |cs|
    ensures forall c | c in r :: c in cs && c.custId != id
    ensures forall c | c in cs && c.custId != id :: c in r
    decreases |cs|
  {
    if cs == [] then []
    else if cs[0].custId == id then WithoutId(cs[1..], id)
    else [cs[0]] + WithoutId(cs[1..], id)
  }

  /** `remove(index)`: the list without the entry at `i`. */
  function RemoveAt(cs: seq<Customer>, i: nat): (r: seq<Customer>)
    requires i < |cs|
    ensures |r| == |cs| - 1
    ensures forall j :: 0 <= j < i ==> r[j] == cs[j]
    ensures forall j :: i <= j < |r| ==> r[j] == cs[j + 1]
  {
    cs[..i] + cs[i + 1..]
  }

  /** The linear scan behind `findById`: the index of the first entry with the id, or |cs|. */
  method IndexOfId(cs: seq<Customer>, id: int) returns (i: nat)
    ensures i == FirstIndex(cs, id)
  {
    i := 0;
    while i < |cs| && cs[i].custId != id
      invariant i <= |cs|
      invariant forall j :: 0 <= j < i ==> cs[j].custId != id
    {
      i := i + 1;
    }
  }

  /** Removing entries keeps ids and account numbers distinct. */
  lemma {:induction false} WithoutIdKeepsUnique(cs: seq<Customer>, id: int)
    requires Unique(cs)
    ensures Unique(WithoutId(cs, id))
    decreases |cs|
  {
    if cs != [] {
      assert Unique(cs[1..]) by {
        forall i, j | 0 <= i < j < |cs[1..]|
          ensures cs[1..][i].custId != cs[1..][j].custId
          ensures cs[1..][i].account.accNo != cs[1..][j].account.accNo
        {
          assert cs[1..][i] == cs[i + 1] && cs[1..][j] == cs[j + 1];
        }
      }
      WithoutIdKeepsUnique(cs[1..], id);
      if cs[0].custId != id {
        var rest := WithoutId(cs[1..], id);
        var r := [cs[0]] + rest;
        forall i, j | 0 <= i < j < |r|
          ensures r[i].custId != r[j].custId && r[i].account.accNo != r[j].account.accNo
        {
          if i == 0 {
            assert r[j] in cs[1..];
            var k :| 0 <= k < |cs[1..]| && cs[1..][k] == r[j];
            assert cs[k + 1] == r[j];
          } else {
            assert r[i] == rest[i - 1] && r[j] == rest[j - 1];
          }
        }
      }
    }
  }

  /** `removeIf` distributes over concatenation, so the kept entries keep their order. */
  lemma {:induction false} WithoutIdAppend(a: seq<Customer>, b: seq<Customer>, id: int)
    ensures WithoutId(a + b, id) == WithoutId(a, id) + WithoutId(b, id)
    decreases |a|
  {
    if a == [] {
      assert a + b == b;
    } else {
      assert (a + b)[1..] == a[1..] + b;
      WithoutIdAppend(a[1..], b, id);
    }
  }

  /** Appending a customer whose id and account number are both new keeps the list unique. */
  lemma AppendKeepsUnique(cs: seq<Customer>, c: Customer)
    requires Unique(cs)
    requires !HasId(cs, c.custId) && !HasAccNo(cs, c.account.accNo)
    ensures Unique(cs + [c])
  {
    var r := cs + [c];
    forall i, j | 0 <= i < j < |r|
      ensures r[i].custId != r[j].custId && r[i].account.accNo != r[j].account.accNo
    {
      if j == |cs| {
        assert r[i] == cs[i];
      } else {
        assert r[i] == cs[i] && r[j] == cs[j];
      }
    }
  }

  /** Removing one entry keeps the list unique. */
  lemma RemoveAtKeepsUnique(cs: seq<Customer>, i: nat)
    requires i < |cs| && Unique(cs)
    ensures Unique(RemoveAt(cs, i))
  {
    var r := RemoveAt(cs, i);
    forall a, b | 0 <= a < b < |r|
      ensures r[a].custId != r[b].custId && r[a].account.accNo != r[b].account.accNo
    {
      var a' := if a < i then a else a + 1;
      var b' := if b < i then b else b + 1;
      assert r[a] == cs[a'] && r[b] == cs[b'];
    }
  }

  /** The upsert: remove every entry with c's id, then append c. */
  function Upsert(cs: seq<Customer>, c: Customer): (r: seq<Customer>)
    ensures |r| >= 1 && r[|r| - 1] == c
    ensures forall i :: 0 <= i < |r| - 1 ==> r[i].custId != c.custId
    ensures FirstIndex(r, c.custId) == |r| - 1
  {
    var rest := WithoutId(cs, c.custId);
    assert forall i :: 0 <= i < |rest| ==> rest[i] in rest;
    rest + [c]
  }

  /** After an upsert exactly one entry has c's id, c, last; every other
      entry of the old list keeps its relative order. */
  lemma UpsertLeavesOneEntry(cs: seq<Customer>, c: Customer, other: seq<Customer>)
    ensures forall i :: 0 <= i < |Upsert(cs, c)| && Upsert(cs, c)[i].custId == c.custId ==>
      i == |Upsert(cs, c)| - 1
    ensures Upsert(other + cs, c) == WithoutId(other, c.custId) + Upsert(cs, c)
  {
    WithoutIdAppend(other, cs, c.custId);
  }

  /** The upsert keeps the list unique when c's account number is not held by
      another customer. */
  lemma UpsertKeepsUnique(cs: seq<Customer>, c: Customer)
    requires Unique(cs)
    requires forall i :: 0 <= i < |cs| && cs[i].custId != c.custId ==> cs[i].account.accNo != c.account.accNo
    ensures Unique(Upsert(cs, c))
  {
    var rest := WithoutId(cs, c.custId);
    WithoutIdKeepsUnique(cs, c.custId);
    forall d | d in rest
      ensures d.custId != c.custId && d.account.accNo != c.account.accNo
    {
      var k :| 0 <= k < |cs| && cs[k] == d;
    }
    var r := rest + [c];
    forall i, j | 0 <= i < j < |r|
      ensures r[i].custId != r[j].custId && r[i].account.accNo != r[j].account.accNo
    {
      assert r[i] == rest[i];
      if j < |rest| {
        assert r[j] == rest[j];
      } else {
        assert r[i] in rest;
      }
    }
  }

  /** The upsert does not re-check account numbers: if another customer
      already holds c's account number, the list stops being unique. */
  lemma UpsertMayBreakUnique(cs: seq<Customer>, c: Customer, k: nat)
    requires k < |cs| && cs[k].custId != c.custId && cs[k].account.accNo == c.account.accNo
    ensures !Unique(Upsert(cs, c))
  {
    var rest := WithoutId(cs, c.custId);
    var r := rest + [c];
    assert cs[k] in rest;
    var i :| 0 <= i < |rest| && rest[i] == cs[k];
    assert r[i] == cs[k] && r[|r| - 1] == c;
  }
}
