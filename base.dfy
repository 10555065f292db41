/** Small shared definitions: optional values, time stamps, the money column
    width shared by every amount in the schema, and ASCII string helpers. */
module Base {

  datatype Option<T> = None | Some(value: T)

  /** A point in time; the clock is read by the caller and passed in. */
  type Time = int

  /** Every money column is DecimalField(max_digits=12, decimal_places=0):
      a whole number of at most twelve digits. */
  const MaxMoney: int := 999_999_999_999

  predicate Fits(x: int) {
    -MaxMoney <= x <= MaxMoney
  }

  predicate IsDigit(c: char) {
    '0' <= c <= '9'
  }

  /** The ASCII characters `str.strip()` removes: tab, line feed, vertical
      tab, form feed, carriage return, the four separators 0x1C-0x1F, and
      space. */
  predicate IsSpace(c: char) {
    '\t' <= c <= '\r' || '\U{1C}' <= c <= ' '
  }

  /** No NUL character: a CharField refuses one. */
  predicate NoNul(s: string) {
    forall i | 0 <= i < |s| :: s[i] != '\0'
  }

  /** `s` without its leading whitespace. */
  function TrimLeft(s: string): (r: string)
    ensures |r| <= |s| && r == s[|s| - |r|..]
    ensures forall i | 0 <= i < |s| - |r| :: IsSpace(s[i])
    ensures r == [] || !IsSpace(r[0])
    decreases |s|
  {
    if s != [] && IsSpace(s[0]) then TrimLeft(s[1..]) else s
  }

  /** `s` without its trailing whitespace. */
  function TrimRight(s: string): (r: string)
    ensures |r| <= |s| && r == s[..|r|]
    ensures forall i | |r| <= i < |s| :: IsSpace(s[i])
    ensures r == [] || !IsSpace(r[|r| - 1])
    decreases |s|
  {
    if s != [] && IsSpace(s[|s| - 1]) then TrimRight(s[..|s| - 1]) else s
  }

  /** `str.strip()`, which a CharField applies to its input before validating
      it: `s` without leading or trailing whitespace. */
  function Trim(s: string): (r: string)
    ensures |r| <= |s|
    ensures Trimmed(r)
    ensures r == [] <==> forall i | 0 <= i < |s| :: IsSpace(s[i])
  {
    TrimBlank(s);
    TrimRight(TrimLeft(s))
  }

  /** Trimming leaves nothing exactly when every character is whitespace, and
      otherwise keeps the first non-blank character first. */
  lemma TrimBlank(s: string)
    ensures var l := TrimLeft(s);
            && (TrimRight(l) == [] <==> forall i | 0 <= i < |s| :: IsSpace(s[i]))
            && (TrimRight(l) != [] ==> TrimRight(l)[0] == l[0])
  {
    var l := TrimLeft(s);
    if TrimRight(l) == [] {
      // l starts with a non-blank character, which TrimRight would keep.
      assert l == [];
    }
  }

  /** `s` has no leading or trailing whitespace. */
  predicate Trimmed(s: string) {
    s == [] || (!IsSpace(s[0]) && !IsSpace(s[|s| - 1]))
  }

  /** Trimming leaves a string without outer whitespace as it is. */
  lemma TrimmedFixed(s: string)
    requires Trimmed(s)
    ensures Trim(s) == s
  {
    if s != [] {
      assert TrimLeft(s) == s;
      assert TrimRight(s) == s;
    }
  }

  /** Trimming twice trims nothing more. */
  lemma TrimIdempotent(s: string)
    ensures Trim(Trim(s)) == Trim(s)
  {
    TrimmedFixed(Trim(s));
  }

  /** ASCII lower-casing of one character. */
  function LowerChar(c: char): char {
    if 'A' <= c <= 'Z' then (c as int - 'A' as int + 'a' as int) as char else c
  }

  /** ASCII lower-casing of a string (the source calls str.lower()). */
  function Lower(s: string): string {
    seq(|s|, i requires 0 <= i < |s| => LowerChar(s[i]))
  }

  /** Decimal rendering of a natural number, as an f-string does. */
  function DecimalString(n: nat): string
    decreases n
  {
    var d := [(n % 10 + '0' as int) as char];
    if n < 10 then d else DecimalString(n / 10) + d
  }
}
