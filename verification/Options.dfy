/** Optional values, a list search and an induction that the other modules share. */
module Options {
  datatype Option<+T> = None | Some(value: T)

  /** Index of the first element for which `holds`, or the length. */
  function FirstIndex<T>(s: seq<T>, holds: T -> bool): (i: nat)
    ensures i <= |s|
    ensures forall j :: 0 <= j < i ==> !holds(s[j])
    ensures i < |s| ==> holds(s[i])
  {
    if s == [] || holds(s[0]) then 0 else 1 + FirstIndex(s[1..], holds)
  }

  /** What holds at `m` and is kept by every step holds at `n`. */
  lemma {:induction false} Onward(holds: nat -> bool, m: nat, n: nat)
    requires m <= n && holds(m)
    requires forall k: nat :: m <= k < n && holds(k) ==> holds(k + 1)
    ensures holds(n)
    decreases n
  {
    if m < n {
      Onward(holds, m, n - 1);
      assert holds(n - 1 + 1);
    }
  }
}
