/**
 * Failure-carrying datatypes shared by the whole model, and the small string
 * helpers (`{}` formatting of integers, `join`) the Rust code gets from its
 * standard library.
 */
module DFErrors {

  datatype Option<+T> = None | Some(value: T)

  /** The error kinds of `DataFusionError` that the modelled code produces.
      A Rust panic (an out-of-bounds index, an `assert!`, an explicit `panic!`,
      an arithmetic overflow) is not an error value in Rust; it is modelled as
      the `Panic` kind so that every function stays total. */
  datatype DataFusionError =
    | Plan(msg: string)
    | Internal(msg: string)
    | NotImplemented(msg: string)
    | Panic(msg: string)

  datatype Result<+T> = Ok(value: T) | Err(error: DataFusionError)

  const IndexOutOfBounds: DataFusionError := Panic("index out of bounds")

  /** Decimal digit character for 0..9. */
  function DigitChar(d: nat): (c: char)
    requires d < 10
    ensures '0' <= c <= '9'
  {
    ['0', '1', '2', '3', '4', '5', '6', '7', '8', '9'][d]
  }

  /** Rust's `{}` rendering of a non-negative integer. */
  function NatToString(n: nat): (s: string)
    ensures |s| > 0
    ensures forall i :: 0 <= i < |s| ==> '0' <= s[i] <= '9'
    decreases n
  {
    if n < 10 then [DigitChar(n)] else NatToString(n / 10) + [DigitChar(n % 10)]
  }

  /** Rust's `{}` rendering of a signed integer. */
  function IntToString(n: int): (s: string)
    ensures |s| > 0
  {
    if n < 0 then "-" + NatToString(-n) else NatToString(n)
  }

  lemma DigitCharInjective(a: nat, b: nat)
    requires a < 10 && b < 10 && DigitChar(a) == DigitChar(b)
    ensures a == b
  {
  }

  /** Distinct numbers are rendered as distinct strings. */
  lemma {:induction false} NatToStringInjective(a: nat, b: nat)
    requires NatToString(a) == NatToString(b)
    ensures a == b
    decreases a
  {
    var sa, sb := NatToString(a), NatToString(b);
    if a < 10 && b < 10 {
      DigitCharInjective(a, b);
    } else if a >= 10 && b >= 10 {
      assert sa[|sa| - 1] == DigitChar(a % 10);
      assert sb[|sb| - 1] == DigitChar(b % 10);
      DigitCharInjective(a % 10, b % 10);
      assert NatToString(a / 10) == sa[..|sa| - 1];
      assert NatToString(b / 10) == sb[..|sb| - 1];
      NatToStringInjective(a / 10, b / 10);
    }
  }

  /** `parts.join(sep)` of Rust's slice API. */
  function Join(parts: seq<string>, sep: string): (s: string)
    ensures parts == [] ==> s == ""
    ensures |parts| == 1 ==> s == parts[0]
    decreases |parts|
  {
    if parts == [] then ""
    else if |parts| == 1 then parts[0]
    else parts[0] + sep + Join(parts[1..], sep)
  }

  /** Appending a fixed prefix to distinct numerals gives distinct names
      (`format!("column{}", n)` and the like). */
  lemma PrefixedNumeralInjective(prefix: string, a: nat, b: nat)
    requires prefix + NatToString(a) == prefix + NatToString(b)
    ensures a == b
  {
    var x, y := prefix + NatToString(a), prefix + NatToString(b);
    assert NatToString(a) == x[|prefix|..];
    assert NatToString(b) == y[|prefix|..];
    NatToStringInjective(a, b);
  }
}
