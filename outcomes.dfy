/** How the annotation constructor caller and the instances it builds end:
    with a value, or with one of the exceptions the source throws. */
module Outcomes {
  import opened JvmModel

  datatype Option<+T> = None | Some(value: T)

  /** The exceptions of the annotation constructor caller and of the instances
      it creates. */
  datatype Failure =
      /** `UnsupportedOperationException` from the caller's `init` block. */
    | PositionalCallNotAllowed
      /** `IllegalArgumentException` from `call`: argument `index`, named `name`,
          is not an instance of the erased parameter type `expected`. */
    | IllegalArgumentType(index: nat, name: string, expected: JClass)
      /** The cast `theirs as XArray` in `equals` failed for member `name`. */
    | CastFailed(name: string)
      /** `KotlinReflectionInternalError` from the proxy: no handler for method
          `name` called with `args`. */
    | MethodNotSupported(name: string, args: seq<Value>)

  datatype Result<+T> = Ok(value: T) | Thrown(error: Failure)

  function DigitChar(d: nat): (c: char)
    requires d < 10
    ensures '0' <= c <= '9'
  {
    ('0' as int + d) as char
  }

  /** `n.toString()` for a non-negative `Int`. */
  function DecimalString(n: nat): (s: string)
    ensures 1 <= |s|
    ensures forall i :: 0 <= i < |s| ==> '0' <= s[i] <= '9'
    ensures 1 < |s| ==> s[0] != '0'
    decreases n
  {
    if n < 10 then [DigitChar(n)] else DecimalString(n / 10) + [DigitChar(n % 10)]
  }

  /** The number a string of decimal digits denotes. */
  function DecimalValue(s: string): nat
    requires forall i :: 0 <= i < |s| ==> '0' <= s[i] <= '9'
  {
    if s == [] then 0 else 10 * DecimalValue(s[..|s| - 1]) + (s[|s| - 1] as int - '0' as int)
  }

  /** The index printed in an error message reads back as the index. */
  lemma {:induction false} DecimalRoundTrip(n: nat)
    ensures DecimalValue(DecimalString(n)) == n
    decreases n
  {
    if n >= 10 {
      var q, d := n / 10, n % 10;
      DecimalRoundTrip(q);
      var s := DecimalString(n);
      assert s == DecimalString(q) + [DigitChar(d)];
      assert s[..|s| - 1] == DecimalString(q);
      assert DecimalValue(s) == 10 * q + d;
    }
  }

  /** The message of `IllegalArgumentType(index, name, expected)`:
      "Argument #<index> <name> is not of the required type <Kotlin name>". */
  function IllegalArgumentTypeMessage(index: nat, name: string, expected: JClass, jvm: Jvm): (m: string)
    ensures var d := DecimalString(index);
      && |m| >= 11 + |d| + |name|
      && m[..10] == "Argument #"
      && m[10..10 + |d|] == d
      && m[10 + |d|] == ' '
      && m[11 + |d|..11 + |d| + |name|] == name
  {
    "Argument #" + DecimalString(index) + " " + name + " is not of the required type " + jvm.kotlinName(expected)
  }
}
