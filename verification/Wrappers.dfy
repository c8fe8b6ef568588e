/** The value types shared by every module. */
module Wrappers {

  datatype Option<+T> = None | Some(value: T)

  /** The content of a file, as the stream classes read and write it. */
  newtype byte = b: int | 0 <= b < 256
  type Bytes = seq<byte>

  /** A condition as a count. */
  function One(b: bool): nat { if b then 1 else 0 }

  lemma QuotientIs(m: nat, c: nat, q: nat, rest: nat)
    requires m == q * c + rest && rest < c
    ensures m / c == q
  {
    var k := m / c;
    assert m == k * c + m % c;
    assert (k - q) * c == k * c - q * c && (q - k) * c == q * c - k * c;
    if k > q {
      AtLeastOnce(k - q, c);
    } else if q > k {
      AtLeastOnce(q - k, c);
    }
  }

  lemma AtLeastOnce(a: nat, c: nat)
    requires a >= 1
    ensures a * c >= c
  {
  }
}
