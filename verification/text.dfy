/**
 Character classes and small scanning functions over strings, shared by the
 two title patterns. Strings are `seq<char>`; indices are positions in them.
 */
module Text {

  datatype Option<+T> = None | Some(value: T)

  /** The span `start..end` of a capture group, as a match object's `span(1)` reports it. */
  datatype Span = Span(start: nat, end: nat)

  /** The text of the group that `sp` spans in `s`, as a match object's `group(1)` returns it. */
  function Group(s: string, sp: Span): string
    requires sp.start <= sp.end <= |s|
  {
    s[sp.start..sp.end]
  }

  /** The regular-expression class `\d`, restricted to ASCII digits. */
  predicate IsDigit(c: char) {
    '0' <= c <= '9'
  }

  /** The regular-expression class `\w`, restricted to ASCII letters, digits and `_`. */
  predicate IsWordChar(c: char) {
    'a' <= c <= 'z' || 'A' <= c <= 'Z' || IsDigit(c) || c == '_'
  }

  /** `s` holds the literal `lit` starting at index `i`. */
  predicate HasAt(s: string, i: int, lit: string) {
    0 <= i && i + |lit| <= |s| && forall j :: 0 <= j < |lit| ==> s[i + j] == lit[j]
  }

  /** No character of `s[i..j]` is a line feed, the one character `.` refuses. */
  predicate NoNewlineIn(s: string, i: int, j: int)
    requires 0 <= i && j <= |s|
  {
    forall k :: i <= k < j ==> s[k] != '\n'
  }

  /** The index of the first line feed at or after `i`, or `|s|` when there is none. */
  function LineEnd(s: string, i: nat): (n: nat)
    requires i <= |s|
    ensures i <= n <= |s|
    ensures NoNewlineIn(s, i, n)
    ensures n < |s| ==> s[n] == '\n'
    decreases |s| - i
  {
    if i == |s| || s[i] == '\n' then i else LineEnd(s, i + 1)
  }

  /** A run of `.` from `i` to `j` is possible exactly when `j` does not pass the line end. */
  lemma NoNewlineInIffBeforeLineEnd(s: string, i: nat, j: nat)
    requires i <= j <= |s|
    ensures NoNewlineIn(s, i, j) <==> j <= LineEnd(s, i)
  {
  }

  /**
   A capture group `(\w.+)` can occupy `s[p..e]` and be followed by the literal
   `close`: a word character, then at least one more character, none a line feed.
   */
  predicate CaptureAt(s: string, p: int, e: int, close: string) {
    0 <= p && p + 2 <= e <= |s| && IsWordChar(s[p]) && NoNewlineIn(s, p + 1, e) && HasAt(s, e, close)
  }

  /** Every character of `s[..k]` is a digit. */
  predicate AllDigits(s: string, k: int)
    requires 0 <= k <= |s|
  {
    forall i :: 0 <= i < k ==> IsDigit(s[i])
  }

  /** The length of the longest digit prefix of `s[i..]`, counted from `i`. */
  function DigitRunFrom(s: string, i: nat): (k: nat)
    requires i <= |s|
    ensures i + k <= |s|
    ensures forall j :: i <= j < i + k ==> IsDigit(s[j])
    ensures i + k < |s| ==> !IsDigit(s[i + k])
    decreases |s| - i
  {
    if i < |s| && IsDigit(s[i]) then 1 + DigitRunFrom(s, i + 1) else 0
  }

  /** The length of the longest digit prefix of `s`. */
  function DigitRun(s: string): (k: nat)
    ensures k <= |s| && AllDigits(s, k)
    ensures k < |s| ==> !IsDigit(s[k])
  {
    DigitRunFrom(s, 0)
  }

  /** A digit prefix can be followed by a non-digit only where the digit run ends. */
  lemma DigitPrefixIsRun(s: string, k: nat)
    requires k < |s| && AllDigits(s, k) && !IsDigit(s[k])
    ensures k == DigitRun(s)
  {
  }

  /**
   The largest index in `lo..hi` (both inclusive) that satisfies `P`. This is
   the position a greedy `.+` settles on after backtracking from the right.
   */
  function Last(lo: int, hi: int, P: int -> bool): (r: Option<int>)
    ensures r.Some? ==> lo <= r.value <= hi && P(r.value)
    ensures r.Some? ==> forall j :: r.value < j <= hi ==> !P(j)
    ensures r.None? <==> forall j :: lo <= j <= hi ==> !P(j)
    decreases hi - lo
  {
    if hi < lo then None
    else if P(hi) then Some(hi)
    else Last(lo, hi - 1, P)
  }

  /** Every index in range that satisfies `P` is at or below the one `Last` returns. */
  lemma LastIsGreatest(lo: int, hi: int, P: int -> bool, j: int)
    requires lo <= j <= hi && P(j)
    ensures Last(lo, hi, P).Some? && j <= Last(lo, hi, P).value
  {
  }

  /** The literal `lit` occurs at an index: the test a backtracking scan performs at each position. */
  function At(s: string, lit: string): int -> bool {
    i => HasAt(s, i, lit)
  }

  /** The decimal numeral of a natural number, most significant digit first. */
  function Decimal(n: nat): (r: string)
    ensures |r| >= 1 && AllDigits(r, |r|)
    decreases n
  {
    if n < 10 then [DigitChar(n)] else Decimal(n / 10) + [DigitChar(n % 10)]
  }

  /** The digit character for `d`. */
  function DigitChar(d: nat): (c: char)
    requires d < 10
    ensures IsDigit(c) && DigitValue(c) == d
  {
    ('0' as int + d) as char
  }

  /** The number a digit character stands for. */
  function DigitValue(c: char): (d: nat)
    requires IsDigit(c)
    ensures d < 10
  {
    c as int - '0' as int
  }

  /** The numeral has at most `w` digits exactly when the number is below `10^w`. */
  lemma {:induction false} DecimalWidth(n: nat, w: nat)
    requires w >= 1
    ensures |Decimal(n)| <= w <==> n < Pow10(w)
    decreases n
  {
    if n < 10 {
      Pow10Positive(w - 1);
    } else if w == 1 {
      assert |Decimal(n)| >= 2;
    } else {
      DecimalWidth(n / 10, w - 1);
    }
  }

  function Pow10(w: nat): (p: nat)
    ensures p >= 1
  {
    if w == 0 then 1 else 10 * Pow10(w - 1)
  }

  lemma Pow10Positive(w: nat)
    ensures Pow10(w + 1) >= 10
  {
  }

  /** `str` of a Python integer: a minus sign for negative values, then the decimal numeral. */
  function IntToString(n: int): (r: string)
    ensures |r| >= 1
    ensures n >= 0 ==> r == Decimal(n)
    ensures n < 0 ==> r[0] == '-'
  {
    if n >= 0 then Decimal(n) else "-" + Decimal(-n)
  }
}
