/** `strftime("%d.%m.%Y")` and its inverse, for the billing-period line. */
module Formatting {
  import opened Calendar
  import opened Records

  predicate IsDigit(c: char) {
    '0' <= c <= '9'
  }

  function DigitChar(n: int): (c: char)
    requires 0 <= n <= 9
    ensures IsDigit(c)
  {
    (48 + n) as char
  }

  function DigitValue(c: char): int {
    c as int - 48
  }

  /** `n` as two zero-padded digits (`%d`, `%m`). */
  function Pad2(n: int): (s: string)
    requires 0 <= n < 100
    ensures |s| == 2 && IsDigit(s[0]) && IsDigit(s[1])
    ensures Read2(s) == n
  {
    [DigitChar(n / 10), DigitChar(n % 10)]
  }

  /** `n` as four zero-padded digits (`%Y`). */
  function Pad4(n: int): (s: string)
    requires 0 <= n < 10000
    ensures |s| == 4 && IsDigit(s[0]) && IsDigit(s[1]) && IsDigit(s[2]) && IsDigit(s[3])
    ensures Read4(s) == n
  {
    var hi, lo := Pad2(n / 100), Pad2(n % 100);
    assert Read4(hi + lo) == 100 * Read2(hi) + Read2(lo);
    hi + lo
  }

  function Read2(s: string): int
    requires |s| == 2
  {
    10 * DigitValue(s[0]) + DigitValue(s[1])
  }

  function Read4(s: string): int
    requires |s| == 4
  {
    1000 * DigitValue(s[0]) + 100 * DigitValue(s[1]) + 10 * DigitValue(s[2]) + DigitValue(s[3])
  }

  /** Reads back a `dd.mm.yyyy` text; `None` for anything of another shape. */
  function ParseDate(s: string): Option<Ymd> {
    if |s| == 10 && s[2] == '.' && s[5] == '.'
       && IsDigit(s[0]) && IsDigit(s[1]) && IsDigit(s[3]) && IsDigit(s[4])
       && IsDigit(s[6]) && IsDigit(s[7]) && IsDigit(s[8]) && IsDigit(s[9])
    then Some(Ymd(Read4(s[6..10]), Read2(s[3..5]), Read2(s[0..2])))
    else None
  }

  /** `d.strftime("%d.%m.%Y")`: ten characters that read back as `d`. */
  function FormatDate(d: Date): (s: string)
    ensures |s| == 10
    ensures ParseDate(s).Some? && ParseDate(s).value == d
  {
    var dd, mm, yyyy := Pad2(d.day), Pad2(d.month), Pad4(d.year);
    var s := dd + "." + mm + "." + yyyy;
    assert s[0..2] == dd && s[3..5] == mm && s[6..10] == yyyy;
    s
  }
}
