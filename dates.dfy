/** Calendar dates as Python's `datetime.date` holds them, the text form `str(date)`
    prints, and the parse that `format_date` performs on an index label. */
module Dates {
  import opened Names

  datatype Date = Date(year: int, month: int, day: int)

  predicate IsLeap(y: int) {
    y % 4 == 0 && (y % 100 != 0 || y % 400 == 0)
  }

  function DaysInMonth(y: int, m: int): int
    requires 1 <= m <= 12
  {
    if m == 2 then (if IsLeap(y) then 29 else 28)
    else if m == 4 || m == 6 || m == 9 || m == 11 then 30
    else 31
  }

  /** The dates `datetime.date(y, m, d)` accepts (it raises ValueError otherwise). */
  predicate IsValid(d: Date) {
    1 <= d.year <= 9999 && 1 <= d.month <= 12 && 1 <= d.day <= DaysInMonth(d.year, d.month)
  }

  /** Chronological order. */
  predicate Before(a: Date, b: Date) {
    a.year < b.year || (a.year == b.year && (a.month < b.month || (a.month == b.month && a.day < b.day)))
  }

  datatype ParseError = NotAnInteger(text: string) | TooFewFields | NoSuchDate(y: int, m: int, d: int)

  datatype Parsed<T> = Ok(value: T) | Err(error: ParseError)

  predicate IsDigit(ch: char) { '0' <= ch <= '9' }

  predicate AllDigits(s: string) { forall i :: 0 <= i < |s| ==> IsDigit(s[i]) }

  function DigitsValue(s: string): (n: nat)
    requires AllDigits(s)
  {
    if |s| == 0 then 0 else DigitsValue(s[..|s| - 1]) * 10 + (s[|s| - 1] as int - '0' as int)
  }

  /** `int(s)` for an optional sign followed by decimal digits. */
  function ParseInt(s: string): (r: Parsed<int>)
    ensures r.Ok? <==> (|s| > 0 && AllDigits(s)) || (|s| > 1 && (s[0] == '+' || s[0] == '-') && AllDigits(s[1..]))
  {
    if |s| > 0 && AllDigits(s) then Ok(DigitsValue(s))
    else if |s| > 1 && s[0] == '+' && AllDigits(s[1..]) then Ok(DigitsValue(s[1..]))
    else if |s| > 1 && s[0] == '-' && AllDigits(s[1..]) then Ok(-(DigitsValue(s[1..]) as int))
    else Err(NotAnInteger(s))
  }

  /** `list(map(int, parts))`: every piece is converted, the first bad one raises. */
  function ParseInts(parts: seq<string>): (r: Parsed<seq<int>>)
    ensures r.Ok? ==> |r.value| == |parts|
    ensures r.Ok? <==> forall i :: 0 <= i < |parts| ==> ParseInt(parts[i]).Ok?
    ensures r.Ok? ==> forall i :: 0 <= i < |parts| ==> r.value[i] == ParseInt(parts[i]).value
  {
    if |parts| == 0 then Ok([])
    else match ParseInt(parts[0])
      case Err(e) => Err(e)
      case Ok(n) =>
        match ParseInts(parts[1..])
        case Err(e) => Err(e)
        case Ok(ns) => Ok([n] + ns)
  }

  /** `str(dates).split(" ")[0].split("-")`, converted to integers, then
      `datetime.date(y, m, d)`. */
  function ParseDateText(text: string): (r: Parsed<Date>)
    ensures r.Ok? ==> IsValid(r.value)
  {
    var fields := Split(Split(text, ' ')[0], '-');
    match ParseInts(fields)
    case Err(e) => Err(e)
    case Ok(ns) =>
      if |ns| < 3 then Err(TooFewFields)
      else if IsValid(Date(ns[0], ns[1], ns[2])) then Ok(Date(ns[0], ns[1], ns[2]))
      else Err(NoSuchDate(ns[0], ns[1], ns[2]))
  }

  function Digit(n: int): char
    requires 0 <= n < 10
  {
    ('0' as int + n) as char
  }

  function Pad2(n: int): string
    requires 0 <= n < 100
  {
    [Digit(n / 10), Digit(n % 10)]
  }

  function Pad4(n: int): string
    requires 0 <= n < 10000
  {
    [Digit(n / 1000), Digit(n / 100 % 10), Digit(n / 10 % 10), Digit(n % 10)]
  }

  /** `str(date)`: `YYYY-MM-DD`, zero-padded. */
  function Render(d: Date): string
    requires IsValid(d)
  {
    Pad4(d.year) + "-" + Pad2(d.month) + "-" + Pad2(d.day)
  }

  lemma Pad2Parses(n: int)
    requires 0 <= n < 100
    ensures AllDigits(Pad2(n)) && DigitsValue(Pad2(n)) == n
  {
    var s := Pad2(n);
    assert s[..1] == [Digit(n / 10)];
    assert s[..1][..0] == [];
    assert DigitsValue(s[..1]) == n / 10;
    assert s[..2] == s;
  }

  lemma Pad4Parses(n: int)
    requires 0 <= n < 10000
    ensures AllDigits(Pad4(n)) && DigitsValue(Pad4(n)) == n
  {
    var s := Pad4(n);
    assert s[..3][..2][..1][..0] == [];
    assert s[..3][..2] == s[..2] && s[..2][..1] == s[..1];
    assert DigitsValue(s[..1]) == n / 1000;
    var b := n / 100;
    assert b / 10 == n / 1000;
    assert DigitsValue(s[..2]) == b / 10 * 10 + b % 10 == b;
    var a := n / 10;
    assert a / 10 == b;
    assert DigitsValue(s[..3]) == a / 10 * 10 + a % 10 == a;
    assert s[..4] == s;
  }

  /** The label of a date parses back to that date, whatever follows a space. */
  lemma {:induction false} RenderParses(d: Date, rest: string)
    requires IsValid(d)
    requires |rest| == 0 || rest[0] == ' '
    ensures ParseDateText(Render(d) + rest) == Ok(d)
  {
    var y, m, dd := Pad4(d.year), Pad2(d.month), Pad2(d.day);
    var r := Render(d);
    assert ' ' !in r;
    if |rest| == 0 {
      SplitWithout(r, ' ');
      assert r + rest == r;
    } else {
      SplitPrefix(r, rest[1..], ' ');
      assert r + [' '] + rest[1..] == r + rest;
    }
    assert Split(r + rest, ' ')[0] == r;
    assert Join([m, dd], '-') == m + "-" + dd;
    assert Join([y, m, dd], '-') == y + "-" + Join([m, dd], '-');
    assert r == Join([y, m, dd], '-');
    SplitJoin([y, m, dd], '-');
    Pad4Parses(d.year);
    Pad2Parses(d.month);
    Pad2Parses(d.day);
  }
}
