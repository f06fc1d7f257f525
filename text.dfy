/**
 * The pieces of Python's text handling that the HTTP headers of the API
 * extractor go through: `str(n)` for a natural number, `int(s)` on a string,
 * and `s.split(c)[1]`.
 */
module PyText {
  import opened Wrappers

  predicate IsDigit(c: char)
  {
    '0' <= c <= '9'
  }

  function DigitChar(d: nat): (c: char)
    requires d < 10
    ensures IsDigit(c)
  {
    ('0' as int + d) as char
  }

  function DigitValue(c: char): nat
    requires IsDigit(c)
  {
    c as int - '0' as int
  }

  /** `str(n)`: the decimal digits of `n`, without leading zeros. */
  function NatToString(n: nat): (s: string)
    ensures |s| > 0 && forall i :: 0 <= i < |s| ==> IsDigit(s[i])
    decreases n
  {
    if n < 10 then [DigitChar(n)] else NatToString(n / 10) + [DigitChar(n % 10)]
  }

  /** A numeral holds no character other than digits. */
  lemma NotInNumeral(n: nat, c: char)
    requires !IsDigit(c)
    ensures c !in NatToString(n)
  {
  }

  /** The ASCII characters `str.isspace()` accepts: space, tab through carriage return, and the four separators 0x1C-0x1F. */
  predicate IsSpace(c: char)
  {
    c == ' ' || '\t' <= c <= '\r' || '\U{001C}' <= c <= '\U{001F}'
  }

  /**
   * Where `int()` is in its input: in the leading whitespace, just after the
   * sign, just after a digit, just after an underscore, or in the trailing
   * whitespace; `negative` and `value` are the sign and the digits so far.
   */
  datatype ScanState =
    | Leading
    | Signed(negative: bool)
    | InDigits(negative: bool, value: nat)
    | AfterUnderscore(negative: bool, value: nat)
    | Trailing(negative: bool, value: nat)

  /** One character of `int()`'s input: the next state, or `None` where it raises ValueError. */
  function ScanStep(state: ScanState, c: char): Option<ScanState>
  {
    match state
    case Leading =>
      if IsSpace(c) then Some(Leading)
      else if c == '+' || c == '-' then Some(Signed(c == '-'))
      else if IsDigit(c) then Some(InDigits(false, DigitValue(c)))
      else None
    case Signed(negative) =>
      if IsDigit(c) then Some(InDigits(negative, DigitValue(c))) else None
    case InDigits(negative, value) =>
      if IsDigit(c) then Some(InDigits(negative, value * 10 + DigitValue(c)))
      else if c == '_' then Some(AfterUnderscore(negative, value))
      else if IsSpace(c) then Some(Trailing(negative, value))
      else None
    case AfterUnderscore(negative, value) =>
      if IsDigit(c) then Some(InDigits(negative, value * 10 + DigitValue(c))) else None
    case Trailing(negative, value) =>
      if IsSpace(c) then Some(Trailing(negative, value)) else None
  }

  /** The rest of `int()`'s input from `state` on: the number, or `None` where it raises ValueError. */
  function Scan(s: string, state: ScanState): Option<int>
    decreases |s|
  {
    if |s| == 0 then
      match state
      case InDigits(negative, value) => Some(if negative then -(value as int) else value)
      case Trailing(negative, value) => Some(if negative then -(value as int) else value)
      case _ => None
    else match ScanStep(state, s[0])
      case None => None
      case Some(next) => Scan(s[1..], next)
  }

  /**
   * `int(s)` on a string: optional whitespace, an optional sign, digits with
   * single underscores between digits, optional whitespace; `None` where
   * Python raises ValueError.
   */
  function ParseInt(s: string): Option<int>
  {
    Scan(s, Leading)
  }

  /** The number that the digits `ds` continue after `value`. */
  function Continued(value: nat, ds: string): nat
    requires forall i :: 0 <= i < |ds| ==> IsDigit(ds[i])
    decreases |ds|
  {
    if |ds| == 0 then value else Continued(value * 10 + DigitValue(ds[0]), ds[1..])
  }

  /** Reading digits after a digit continues the number. */
  lemma {:induction false} ScanDigits(ds: string, value: nat)
    requires forall i :: 0 <= i < |ds| ==> IsDigit(ds[i])
    ensures Scan(ds, InDigits(false, value)) == Some(Continued(value, ds))
    decreases |ds|
  {
    if |ds| > 0 {
      ScanDigits(ds[1..], value * 10 + DigitValue(ds[0]));
    }
  }

  /** A digit at the end multiplies what comes before by ten. */
  lemma {:induction false} ContinuedSnoc(value: nat, ds: string, c: char)
    requires (forall i :: 0 <= i < |ds| ==> IsDigit(ds[i])) && IsDigit(c)
    ensures Continued(value, ds + [c]) == Continued(value, ds) * 10 + DigitValue(c)
    decreases |ds|
  {
    if |ds| > 0 {
      assert (ds + [c])[1..] == ds[1..] + [c];
      ContinuedSnoc(value * 10 + DigitValue(ds[0]), ds[1..], c);
    }
  }

  /** The digits of `str(n)` spell `n`. */
  lemma {:induction false} ContinuedOfNat(n: nat)
    ensures Continued(0, NatToString(n)) == n
    decreases n
  {
    if n >= 10 {
      ContinuedOfNat(n / 10);
      ContinuedSnoc(0, NatToString(n / 10), DigitChar(n % 10));
    }
  }

  /** `int(str(n)) == n`: the decimal form of a natural number reads back as that number. */
  lemma ParseNatToString(n: nat)
    ensures ParseInt(NatToString(n)) == Some(n)
  {
    var s := NatToString(n);
    ScanDigits(s[1..], DigitValue(s[0]));
    ContinuedOfNat(n);
  }

  /** The position of the first `c` in `s`. */
  function Find(s: string, c: char): (i: nat)
    requires c in s
    ensures i < |s| && s[i] == c && c !in s[..i]
  {
    if s[0] == c then 0 else assert s == [s[0]] + s[1..]; Find(s[1..], c) + 1
  }

  /** `s.split(c)[1]`: the text between the first and the second `c`, or to the end when there is no second one. */
  function SecondField(s: string, c: char): string
    requires c in s
  {
    var rest := s[Find(s, c) + 1..];
    if c in rest then rest[..Find(rest, c)] else rest
  }

  /** Splitting at the only `c` yields what follows it. */
  lemma SecondFieldOf(a: string, c: char, b: string)
    requires c !in a && c !in b
    ensures c in a + [c] + b
    ensures SecondField(a + [c] + b, c) == b
  {
    var s := a + [c] + b;
    assert s[|a|] == c;
    assert s[Find(s, c) + 1..] == b;
  }
}
