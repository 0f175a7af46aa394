/** Small shared vocabulary. */
module Basics {

  datatype Option<+T> = None | Some(value: T)

  datatype Result<+T, +E> = Ok(value: T) | Err(error: E)

  /** The first index holding x, or |s| when there is none. */
  function IndexOf<T(==)>(s: seq<T>, x: T): (i: nat)
    ensures i <= |s|
    ensures i < |s| ==> s[i] == x
    ensures forall j :: 0 <= j < i ==> s[j] != x
  {
    if s == [] || s[0] == x then 0 else 1 + IndexOf(s[1..], x)
  }

  /** part stands in text at i. */
  ghost predicate Occurs<T>(text: seq<T>, i: nat, part: seq<T>) {
    i + |part| <= |text| && forall k :: i <= k < i + |part| ==> text[k] == part[k - i]
  }

  lemma OccursJoin<T>(text: seq<T>, i: nat, a: seq<T>, b: seq<T>)
    ensures Occurs(text, i, a + b) <==> Occurs(text, i, a) && Occurs(text, i + |a|, b)
  {
    if Occurs(text, i, a + b) {
      forall k | i <= k < i + |a| ensures text[k] == a[k - i] { assert text[k] == (a + b)[k - i]; }
      forall k | i + |a| <= k < i + |a| + |b| ensures text[k] == b[k - i - |a|] { assert text[k] == (a + b)[k - i]; }
    }
  }

  lemma OccursWhole<T>(text: seq<T>)
    ensures Occurs(text, 0, text)
  {
  }

  /** The white space of JavaScript's \s and trim, as code units. */
  predicate IsSpaceCode(n: nat) {
    9 <= n <= 13 || n == 32 || n == 0xa0 || n == 0x1680 || 0x2000 <= n <= 0x200a
    || n == 0x2028 || n == 0x2029 || n == 0x202f || n == 0x205f || n == 0x3000 || n == 0xfeff
  }
}
