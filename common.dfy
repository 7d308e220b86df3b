/**
 * Values shared by the item store and the classification flow: the Option/Result
 * wrappers, the error kinds the provider raises, the values a ContentValues map can
 * hold, and the decimal form of row ids.
 */
module Common {

  datatype Option<+T> = None | Some(value: T)

  /** The exceptions the modelled code raises or lets escape. */
  datatype Error =
    | IllegalArgument        // IllegalArgumentException from the URI dispatch or a missing subject id
    | IndexOutOfBounds       // System.arraycopy / List.get out of range
    | NumberFormat           // Long.parseLong on a segment that is not a number
    | Security               // SecurityException rethrown by createCacheFile
    | Unsupported            // UnsupportedOperationException rethrown by createCacheFile
    | SqlError               // SQLiteException: malformed statement or unknown column
    | BatchFailed            // RuntimeException wrapping a failed applyBatch

  datatype Result<+T> = Ok(value: T) | Err(error: Error)

  /**
   * A value held by a ContentValues map. NullV is Java's null; OtherV stands for every
   * Java type that the provider's putValueInContentValues does not copy (Float, Short,
   * Byte, byte[]).
   */
  datatype Value =
    | StrV(s: string)
    | BoolV(b: bool)
    | IntV(i: int)
    | LongV(l: int)
    | DoubleV(d: real)
    | NullV
    | OtherV

  /** A table row, or a ContentValues map: column name to value. */
  type Row = map<string, Value>

  predicate IsDigit(c: char) { '0' <= c <= '9' }

  /** A non-empty run of decimal digits: what the URI matcher's '#' accepts. */
  predicate IsDigits(s: string) {
    |s| > 0 && forall i :: 0 <= i < |s| ==> IsDigit(s[i])
  }

  function DigitChar(d: nat): (c: char)
    requires d < 10
    ensures IsDigit(c) && c as int - '0' as int == d
  {
    ('0' as int + d) as char
  }

  /** Long.toString of a non-negative id. */
  function NatToString(n: nat): (s: string)
    ensures IsDigits(s)
    decreases n
  {
    if n < 10 then [DigitChar(n)] else NatToString(n / 10) + [DigitChar(n % 10)]
  }

  /** The integer a string of digits denotes (leading zeros allowed). */
  function ParseNat(s: string): nat
    requires IsDigits(s)
    decreases |s|
  {
    var last := s[|s| - 1] as int - '0' as int;
    if |s| == 1 then last else ParseNat(s[..|s| - 1]) * 10 + last
  }

  /** Reading back the decimal form of an id gives the id. */
  lemma {:induction false} ParseNatToString(n: nat)
    ensures ParseNat(NatToString(n)) == n
    decreases n
  {
    if n >= 10 {
      var s := NatToString(n);
      assert s[..|s| - 1] == NatToString(n / 10);
      ParseNatToString(n / 10);
    }
  }

  /**
   * The integer SQLite compares a stored value as, in an INTEGER column: text made of
   * digits converts to its number, booleans are stored as 1 and 0, a double that is a
   * whole number compares equal to that integer. Anything else is not equal to any integer.
   */
  function NumericOf(v: Value): Option<int> {
    match v
    case StrV(s) => if IsDigits(s) then Some(ParseNat(s)) else None
    case BoolV(b) => Some(if b then 1 else 0)
    case IntV(i) => Some(i)
    case LongV(l) => Some(l)
    case DoubleV(d) => if d.Floor as real == d then Some(d.Floor) else None
    case NullV | OtherV => None
  }

  /**
   * The row's column compares equal to the integer n; an absent column holds the
   * column's default (None for a column without one, which is NULL and equals nothing).
   */
  predicate ColumnEquals(row: Row, column: string, n: int, default: Option<int>) {
    if column in row then NumericOf(row[column]) == Some(n) else default == Some(n)
  }
}
