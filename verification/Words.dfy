/** Machine words and the result types shared by every component. */
module Words {

  const TWO_TO_THE_32: nat := 0x1_0000_0000
  const TWO_TO_THE_64: nat := 0x1_0000_0000_0000_0000

  type uint8 = x: int | 0 <= x < 0x100
  type uint32 = x: int | 0 <= x < 0x1_0000_0000
  type int32 = x: int | -0x8000_0000 <= x < 0x8000_0000
  type uint64 = x: int | 0 <= x < 0x1_0000_0000_0000_0000

  const MAX_UINT32: uint32 := 0xFFFF_FFFF

  /** Unsigned increment with wrap-around. */
  function Inc32(x: uint32): uint32 {
    (x + 1) % TWO_TO_THE_32
  }

  /** A count that has run on for `n` steps from zero, as a 32-bit word. */
  function Wrapped(n: nat): uint32 {
    n % TWO_TO_THE_32
  }

  lemma WrappedNext(n: nat)
    ensures Inc32(Wrapped(n)) == Wrapped(n + 1)
  {
  }

  datatype Option<+T> = None | Some(value: T)

  datatype Result<+T, +E> = Success(value: T) | Failure(error: E)
  {
    predicate IsFailure() {
      Failure?
    }

    function PropagateFailure<U>(): Result<U, E>
      requires Failure?
    {
      Failure(error)
    }

    function Extract(): T
      requires Success?
    {
      value
    }
  }

  /** Decimal notation. */
  function Digits(n: nat): string {
    if n < 10 then [(n as char) + '0'] else Digits(n / 10) + [(n % 10) as char + '0']
  }

  predicate IsDigit(c: char) {
    '0' <= c <= '9'
  }

  /** The number that decimal notation stands for. */
  function NumberIn(s: string): nat
    requires forall i | 0 <= i < |s| :: IsDigit(s[i])
  {
    if s == "" then 0
    else
      assert IsDigit(s[|s| - 1]);
      10 * NumberIn(s[..|s| - 1]) + (s[|s| - 1] - '0') as nat
  }

  /** The notation consists of digits, does not begin with a zero that could be left out, and reads back. */
  lemma {:induction false} DigitsReadBack(n: nat)
    ensures var s := Digits(n);
            && s != "" && (forall i | 0 <= i < |s| :: IsDigit(s[i]))
            && NumberIn(s) == n
            && (n > 0 ==> s[0] != '0')
    decreases n
  {
    if n >= 10 {
      DigitsReadBack(n / 10);
      var front, last := Digits(n / 10), (n % 10) as char + '0';
      assert (front + [last])[..|front|] == front;
    }
  }
}
