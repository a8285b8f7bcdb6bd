/** The on-disk line `<seq:020> <event-json>\n` and the segment file names. */
module LineFormat {
  import opened Basics
  import opened Lines

  const U64_MAX: nat := 0xFFFF_FFFF_FFFF_FFFF
  const SEQ_DIGITS: nat := 20

  datatype Record = Record(seq_: nat, json: string)

  function Pow10(w: nat): nat {
    if w == 0 then 1 else 10 * Pow10(w - 1)
  }

  predicate IsDigit(c: char) {
    '0' <= c <= '9'
  }

  /** The w low decimal digits of n, zero padded. */
  function Pad(n: nat, w: nat): (s: string)
    ensures |s| == w
  {
    if w == 0 then "" else Pad(n / 10, w - 1) + ['0' + (n % 10) as char]
  }

  function DigitsValue(s: string): Option<nat> {
    if s == "" then Some(0)
    else match DigitsValue(s[..|s| - 1])
      case None => None
      case Some(v) =>
        var c := s[|s| - 1];
        if IsDigit(c) then Some(10 * v + (c as int - '0' as int)) else None
  }

  /** Rust's `u64::from_str`: an optional plus sign, at least one digit, no overflow. */
  function ParseU64(s: string): Option<nat> {
    var digits := if s != "" && s[0] == '+' then s[1..] else s;
    if digits == "" then None
    else match DigitsValue(digits)
      case None => None
      case Some(v) => if v <= U64_MAX then Some(v) else None
  }

  function FormatLine(seq_: nat, json: string): string {
    Pad(seq_, SEQ_DIGITS) + " " + json + "\n"
  }

  function ParseLine(line: string): Option<Record> {
    var body := if line != "" && line[|line| - 1] == '\n' then line[..|line| - 1] else line;
    if |body| <= SEQ_DIGITS || body[SEQ_DIGITS] != ' ' then None
    else
      var json := body[SEQ_DIGITS + 1..];
      match ParseU64(body[..SEQ_DIGITS])
      case None => None
      case Some(n) =>
        if json != "" && json[0] == '{' && json[|json| - 1] == '}' then Some(Record(n, json)) else None
  }

  /** What the serializer guarantees about an event: one JSON object on one line. */
  ghost predicate IsJsonObject(json: string) {
    json != "" && json[0] == '{' && json[|json| - 1] == '}' && '\n' !in json
  }

  function SegmentName(seq_: nat): string {
    "seg-" + Pad(seq_, SEQ_DIGITS) + ".log"
  }

  /** Bytewise order, in which directory listings are sorted. */
  predicate Before(a: string, b: string) {
    if b == "" then false
    else if a == "" then true
    else a[0] < b[0] || (a[0] == b[0] && Before(a[1..], b[1..]))
  }

  lemma {:induction false} PadIsDigits(n: nat, w: nat)
    requires n < Pow10(w)
    ensures DigitsValue(Pad(n, w)) == Some(n)
    ensures '+' !in Pad(n, w) && '\n' !in Pad(n, w)
  {
    if w > 0 {
      PadIsDigits(n / 10, w - 1);
      var s := Pad(n, w);
      assert s[..|s| - 1] == Pad(n / 10, w - 1);
    }
  }

  lemma U64HasTwentyDigits()
    ensures U64_MAX < Pow10(SEQ_DIGITS)
  {
    assert Pow10(4) == 10000;
    assert Pow10(8) == 1_0000_0000;
    assert Pow10(12) == 1_0000_0000_0000;
    assert Pow10(16) == 1_0000_0000_0000_0000;
  }

  /** Parsing inverts formatting, for every sequence number the agent can assign. */
  lemma ParseInvertsFormat(n: nat, json: string)
    requires n <= U64_MAX && IsJsonObject(json)
    ensures ParseLine(FormatLine(n, json)) == Some(Record(n, json))
    ensures IsLine(FormatLine(n, json))
  {
    U64HasTwentyDigits();
    PadIsDigits(n, SEQ_DIGITS);
    var line, pad := FormatLine(n, json), Pad(n, SEQ_DIGITS);
    assert line[..|line| - 1] == pad + " " + json;
    assert (pad + " " + json)[..SEQ_DIGITS] == pad;
    assert (pad + " " + json)[SEQ_DIGITS + 1..] == json;
    assert pad[0] in pad;
    NewlineAt(line, |line| - 1);
  }

  lemma {:induction false} BeforeAppend(p: string, a: string, b: string)
    ensures Before(p + a, p + b) <==> Before(a, b)
  {
    if p == "" {
      assert p + a == a && p + b == b;
    } else {
      assert (p + a)[1..] == p[1..] + a && (p + b)[1..] == p[1..] + b;
      BeforeAppend(p[1..], a, b);
    }
  }

  lemma {:induction false} BeforeSuffix(a: string, b: string, s: string, t: string)
    requires |a| == |b| && Before(a, b)
    ensures Before(a + s, b + t)
  {
    assert (a + s)[1..] == a[1..] + s && (b + t)[1..] == b[1..] + t;
    if a[0] == b[0] { BeforeSuffix(a[1..], b[1..], s, t); }
  }

  lemma {:induction false} PadOrder(m: nat, n: nat, w: nat)
    requires m < n < Pow10(w)
    ensures Before(Pad(m, w), Pad(n, w))
  {
    var a, b := Pad(m / 10, w - 1), Pad(n / 10, w - 1);
    var x, y := ['0' + (m % 10) as char], ['0' + (n % 10) as char];
    if m / 10 == n / 10 {
      BeforeAppend(a, x, y);
    } else {
      PadOrder(m / 10, n / 10, w - 1);
      BeforeSuffix(a, b, x, y);
    }
  }

  lemma {:induction false} BeforeIsStrict(a: string, b: string)
    requires Before(a, b)
    ensures a != b && !Before(b, a)
  {
    if a != "" && a[0] == b[0] { BeforeIsStrict(a[1..], b[1..]); }
  }

  lemma {:induction false} BeforeIsTotal(a: string, b: string)
    ensures a == b || Before(a, b) || Before(b, a)
  {
    if a != "" && b != "" && a[0] == b[0] {
      BeforeIsTotal(a[1..], b[1..]);
      assert a == [a[0]] + a[1..] && b == [b[0]] + b[1..];
    }
  }

  lemma {:induction false} BeforeIsTransitive(a: string, b: string, c: string)
    requires Before(a, b) && Before(b, c)
    ensures Before(a, c)
  {
    if a != "" && a[0] == b[0] == c[0] { BeforeIsTransitive(a[1..], b[1..], c[1..]); }
  }

  /** Zero padding makes the order of segment names the numeric order of their sequence numbers. */
  lemma SegmentNameOrder(m: nat, n: nat)
    requires m <= U64_MAX && n <= U64_MAX
    ensures m < n <==> Before(SegmentName(m), SegmentName(n))
    ensures m == n <==> SegmentName(m) == SegmentName(n)
  {
    U64HasTwentyDigits();
    if m < n { NamesAscend(m, n); }
    if n < m { NamesAscend(n, m); }
    if m == n && Before(SegmentName(m), SegmentName(n)) { BeforeIsStrict(SegmentName(m), SegmentName(n)); }
  }

  lemma NamesAscend(m: nat, n: nat)
    requires m < n < Pow10(SEQ_DIGITS)
    ensures Before(SegmentName(m), SegmentName(n))
    ensures !Before(SegmentName(n), SegmentName(m)) && SegmentName(n) != SegmentName(m)
  {
    var a, b := Pad(m, SEQ_DIGITS), Pad(n, SEQ_DIGITS);
    PadOrder(m, n, SEQ_DIGITS);
    BeforeSuffix(a, b, ".log", ".log");
    BeforeAppend("seg-", a + ".log", b + ".log");
    Assoc("seg-", a, ".log");
    Assoc("seg-", b, ".log");
    BeforeIsStrict(SegmentName(m), SegmentName(n));
  }
}
