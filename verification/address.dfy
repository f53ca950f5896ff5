/** The address value object. */
module Addresses {
  import opened BankErrors
  import opened Text

  const MIN_PIN: int := 100000
  const MAX_PIN: int := 999999

  datatype Address = Address(city: string, state: string, pinCode: int)

  /** A null city or state becomes "Unknown"; any other is trimmed. */
  function OrUnknown(s: Option<string>): (r: string)
    ensures s.None? ==> r == "Unknown"
    ensures s.Some? ==> (r == [] <==> IsBlank(s.value)) && (r == [] || IsTrimmed(r))
  {
    if s.None? then "Unknown" else Trim(s.value)
  }

  /** The constructor: defaults, trimming, and the PIN clamped into the
      six-digit range, an in-range PIN kept as given. */
  function NewAddress(city: Option<string>, state: Option<string>, pinCode: int): (a: Address)
    ensures MIN_PIN <= a.pinCode <= MAX_PIN
    ensures MIN_PIN <= pinCode <= MAX_PIN ==> a.pinCode == pinCode
    ensures pinCode < MIN_PIN ==> a.pinCode == MIN_PIN
    ensures pinCode > MAX_PIN ==> a.pinCode == MAX_PIN
    ensures city.None? ==> a.city == "Unknown"
    ensures state.None? ==> a.state == "Unknown"
    ensures city.Some? ==> a.city == Trim(city.value)
    ensures state.Some? ==> a.state == Trim(state.value)
  {
    var capped := if pinCode < MAX_PIN then pinCode else MAX_PIN;   // Math.min(999999, pinCode)
    Address(OrUnknown(city), OrUnknown(state), if capped > MIN_PIN then capped else MIN_PIN)
  }

  /** `equals`: the same PIN, city and state, which is value equality. */
  function Equals(a: Address, b: Address): (r: bool)
    ensures r <==> a == b
  {
    a.pinCode == b.pinCode && a.city == b.city && a.state == b.state
  }

  /** `hashCode`: 31 * (31 * city.hashCode() + state.hashCode()) + pinCode, in 32-bit arithmetic. */
  function HashCode(a: Address): (h: int)
    ensures -TWO_31 <= h < TWO_31
  {
    Wrap32(31 * Wrap32(31 * StringHash(a.city) + StringHash(a.state)) + a.pinCode)
  }

  /** The hash is the exact value 961 * city.hashCode() + 31 * state.hashCode()
      + pinCode reduced to a Java `int`: congruent modulo 2^32, equal when it fits. */
  lemma HashCodeIsPolynomial(a: Address)
    ensures (HashCode(a) - (961 * StringHash(a.city) + 31 * StringHash(a.state) + a.pinCode)) % TWO_32 == 0
    ensures -TWO_31 <= 961 * StringHash(a.city) + 31 * StringHash(a.state) + a.pinCode < TWO_31 ==>
      HashCode(a) == 961 * StringHash(a.city) + 31 * StringHash(a.state) + a.pinCode
  {
    var inner := 31 * StringHash(a.city) + StringHash(a.state);
    var outer := 31 * Wrap32(inner) + a.pinCode;
    MultiplesOfTwo32(Wrap32(inner) - inner, HashCode(a) - outer);
    var exact := 961 * StringHash(a.city) + 31 * StringHash(a.state) + a.pinCode;
    assert HashCode(a) - exact == 31 * (Wrap32(inner) - inner) + (HashCode(a) - outer);
    if -TWO_31 <= exact < TWO_31 {
      assert -TWO_32 < HashCode(a) - exact < TWO_32;
    }
  }

  /** Equal addresses have equal hash codes. */
  lemma HashAgreesWithEquals(a: Address, b: Address)
    requires Equals(a, b)
    ensures HashCode(a) == HashCode(b)
  {
  }
}
