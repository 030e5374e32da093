/** Values shared by the crusher, its builder and the reactor operation:
    nullable references, Java exceptions and the Java value types they carry. */
module Common {

  /** A Java reference that may be null. */
  datatype Option<+T> = None | Some(value: T)

  /** The exceptions the modelled code throws or lets a callable throw. */
  datatype Throwable =
    | IllegalStateException(message: string)
    | IllegalArgumentException(message: string)
    | IOException(message: string)
    | OtherThrowable(className: string, message: string)

  /** The outcome of a Java call that either returns a value or throws. */
  datatype Result<+T> = Ok(value: T) | Err(error: Throwable)

  /** Java `int` and `long`: the ranges values of those types can take. */
  type Int = x: int | -0x8000_0000 <= x < 0x8000_0000
  type Long = x: int | -0x8000_0000_0000_0000 <= x < 0x8000_0000_0000_0000

  /** A port number an `InetSocketAddress` accepts. */
  type Port = p: int | 0 <= p <= 0xFFFF

  /** A socket address; name resolution is not modelled. */
  datatype InetSocketAddress = InetSocketAddress(hostname: string, port: Port)

  /** The shared event loop, known to the crusher only by identity. */
  datatype NioReactor = NioReactor(id: nat)

  /** `String.valueOf(n)` for an integer: a minus sign for a negative value,
      then the canonical decimal numeral (no leading zero) of its magnitude. */
  function DecimalString(n: int): (s: string)
    ensures n >= 0 ==> AllDigits(s) && NumeralValue(s) == n
    ensures n >= 0 ==> s[0] != '0' || s == "0"
    ensures n < 0 ==> |s| > 1 && s[0] == '-' && AllDigits(s[1..]) && NumeralValue(s[1..]) == -n
    ensures n < 0 ==> s[1] != '0'
  {
    if n < 0 then "-" + NatString(-n) else NatString(n)
  }

  /** The decimal numeral of `n`: digits only, no leading zero, denoting `n`. */
  function NatString(n: nat): (s: string)
    ensures AllDigits(s)
    ensures NumeralValue(s) == n
    ensures s[0] != '0' || s == "0"
    decreases n
  {
    if n < 10 then [Digit(n)]
    else
      var prefix := NatString(n / 10);
      assert (prefix + [Digit(n % 10)])[..|prefix|] == prefix;
      prefix + [Digit(n % 10)]
  }

  function Digit(d: nat): (c: char)
    requires d < 10
  {
    "0123456789"[d]
  }

  predicate AllDigits(s: string) {
    |s| > 0 && forall k :: 0 <= k < |s| ==> '0' <= s[k] <= '9'
  }

  /** The number a string of decimal digits denotes, most significant first. */
  function NumeralValue(s: string): nat
    requires forall k :: 0 <= k < |s| ==> '0' <= s[k] <= '9'
  {
    if s == [] then 0
    else 10 * NumeralValue(s[..|s| - 1]) + (s[|s| - 1] as int - '0' as int)
  }
}
