/** Three-way comparison results, as `std::weak_ordering` carries them, and the
    multi-key "first key that differs decides" pattern the comparators use. */
module Orderings {

  /** `Less` means the left operand sorts first, i.e. is the preferred one. */
  datatype Ordering = Less | Equiv | Greater

  /** `std::weak_order` (and `<=>`) on values with an integer representation:
      plain numeric order. */
  function Compare(x: int, y: int): (o: Ordering)
    ensures o == Less <==> x < y
    ensures o == Equiv <==> x == y
    ensures o == Greater <==> y < x
  {
    if x < y then Less else if x == y then Equiv else Greater
  }

  /** The first key that is not `Equiv`, or `fallback` when every key ties:
      a lexicographic comparison over an ordered list of keys. */
  function FirstDecisive(keys: seq<Ordering>, fallback: Ordering): (o: Ordering)
    ensures o == fallback || o in keys
    ensures (forall i | 0 <= i < |keys| :: keys[i] == Equiv) ==> o == fallback
    ensures |keys| > 0 && keys[0] != Equiv ==> o == keys[0]
    ensures fallback != Equiv ==> o != Equiv
  {
    if |keys| == 0 then fallback
    else if keys[0] != Equiv then keys[0]
    else FirstDecisive(keys[1..], fallback)
  }
}
