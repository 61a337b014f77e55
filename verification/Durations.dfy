/**
 * The duration parser behind reminder intervals: numbers with units, summed up at the width of the
 * counter.
 */
module Durations {
  import opened Wrappers
  import opened Text

  const U64: nat := 0x1_0000_0000_0000_0000

  datatype Part = Part(digits: string, symbol: char)

  datatype DurationError =
    | NoNumber(symbol: char)
    | NumberTooLarge
    | UnknownUnit(symbol: char)
    | TrailingNumber(digits: string)
    | Empty

  predicate IsDigit(c: char) {
    '0' <= c <= '9'
  }

  predicate AreDigits(s: string) {
    forall i | 0 <= i < |s| :: IsDigit(s[i])
  }

  function DigitValue(c: char): nat
    requires IsDigit(c)
  {
    c as int - '0' as int
  }

  function Value(digits: string): nat
    requires AreDigits(digits)
  {
    if |digits| == 0 then 0
    else Value(digits[..|digits| - 1]) * 10 + DigitValue(digits[|digits| - 1])
  }

  function UnitSeconds(c: char): Option<nat> {
    if c == 'd' then Some(86400)
    else if c == 'h' then Some(3600)
    else if c == 'm' then Some(60)
    else if c == 's' then Some(1)
    else None
  }

  // ----- What a duration string means

  predicate IsPart(p: Part) {
    && p.digits != "" && AreDigits(p.digits)
    && Value(p.digits) < U64
    && UnitSeconds(p.symbol).Some?
  }

  predicate AreParts(parts: seq<Part>) {
    forall i | 0 <= i < |parts| :: IsPart(parts[i])
  }

  function Render(parts: seq<Part>): string {
    if parts == [] then "" else parts[0].digits + [parts[0].symbol] + Render(parts[1..])
  }

  function Seconds(parts: seq<Part>): nat
    requires AreParts(parts)
  {
    if parts == [] then 0
    else Value(parts[0].digits) * UnitSeconds(parts[0].symbol).value + Seconds(parts[1..])
  }

  // ----- The scan the parser performs

  /** Scans `rest` with the digits collected so far; `some` tells whether a part was read before. */
  function Scan(digits: string, rest: string, some: bool): Result<seq<Part>, DurationError>
    requires AreDigits(digits)
    decreases |rest|
  {
    if rest == "" then
      if digits != "" then Failure(TrailingNumber(digits))
      else if !some then Failure(Empty)
      else Success([])
    else if IsDigit(rest[0]) then Scan(digits + [rest[0]], rest[1..], some)
    else if digits == "" then Failure(NoNumber(rest[0]))
    else if Value(digits) >= U64 then Failure(NumberTooLarge)
    else if UnitSeconds(rest[0]).None? then Failure(UnknownUnit(rest[0]))
    else
      match Scan("", rest[1..], true)
      case Failure(e) => Failure(e)
      case Success(parts) => Success([Part(digits, rest[0])] + parts)
  }

  /** `here` is what is still to be read when `total` was added up of what `whole` asks for. */
  ghost predicate Owes(whole: Result<seq<Part>, DurationError>, here: Result<seq<Part>, DurationError>, total: nat) {
    match whole
    case Failure(e) => here == Failure(e)
    case Success(parts) =>
      && AreParts(parts) && here.Success? && AreParts(here.value)
      && (total + Seconds(here.value)) % U64 == Seconds(parts) % U64
  }

  function AddPart(total: nat, n: nat, unitSeconds: nat): (sum: nat)
    ensures sum < U64
  {
    (total + (n * unitSeconds) % U64) % U64
  }

  lemma PartIsAdded(whole: Result<seq<Part>, DurationError>, digits: string, rest: string, some: bool, total: nat)
    requires AreDigits(digits) && digits != "" && Value(digits) < U64
    requires rest != "" && UnitSeconds(rest[0]).Some? && !IsDigit(rest[0])
    requires Owes(whole, Scan(digits, rest, some), total)
    ensures Owes(whole, Scan("", rest[1..], true), AddPart(total, Value(digits), UnitSeconds(rest[0]).value))
  {
    var after := Scan("", rest[1..], true);
    if after.Success? {
      ScanGivesParts("", rest[1..], true);
      PartAdds(total, Value(digits) * UnitSeconds(rest[0]).value, Seconds(after.value));
      var all := [Part(digits, rest[0])] + after.value;
      assert all[1..] == after.value;
    }
  }

  /** Sums modulo the width of the counter, as an optimised build adds. */
  method ParseDurationSecs(s: string) returns (r: Result<nat, DurationError>)
    ensures match Scan("", s, false)
            case Failure(e) => r == Failure(e)
            case Success(parts) => AreParts(parts) && r == Success(Seconds(parts) % U64)
  {
    ScanGivesParts("", s, false);
    ghost var whole := Scan("", s, false);
    var total: nat, digits, found, chars := 0, "", false, s;
    while chars != ""
      invariant total < U64
      invariant AreDigits(digits)
      invariant Owes(whole, Scan(digits, chars, found), total)
      decreases |chars|
    {
      var c := chars[0];
      if IsDigit(c) {
        digits := digits + [c];
      } else {
        if digits == "" {
          return Failure(NoNumber(c));
        }
        var n := Value(digits);
        if n >= U64 {
          return Failure(NumberTooLarge);
        }
        var k := UnitSeconds(c);
        if k.None? {
          return Failure(UnknownUnit(c));
        }
        PartIsAdded(whole, digits, chars, found, total);
        total := AddPart(total, n, k.value);
        digits, found := "", true;
      }
      chars := chars[1..];
    }
    if digits != "" {
      return Failure(TrailingNumber(digits));
    }
    if !found {
      return Failure(Empty);
    }
    return Success(total);
  }

  lemma PartAdds(total: nat, part: nat, rest: nat)
    ensures ((total + part % U64) % U64 + rest) % U64 == (total + (part + rest)) % U64
  {
  }

  lemma {:induction false} ScanGivesParts(digits: string, rest: string, some: bool)
    requires AreDigits(digits)
    ensures Scan(digits, rest, some).Success? ==> AreParts(Scan(digits, rest, some).value)
    decreases |rest|
  {
    if rest != "" {
      if IsDigit(rest[0]) {
        ScanGivesParts(digits + [rest[0]], rest[1..], some);
      } else {
        ScanGivesParts("", rest[1..], true);
      }
    }
  }

  // ----- The scan reads exactly the rendered parts

  /** What was read renders back to what was scanned. */
  lemma {:induction false} ScanRendersBack(digits: string, rest: string, some: bool)
    requires AreDigits(digits)
    ensures var r := Scan(digits, rest, some);
            r.Success? ==> Render(r.value) == digits + rest && (r.value != [] || some)
    decreases |rest|
  {
    if rest != "" {
      if IsDigit(rest[0]) {
        ScanRendersBack(digits + [rest[0]], rest[1..], some);
        assert digits + [rest[0]] + rest[1..] == digits + rest;
      } else {
        ScanRendersBack("", rest[1..], true);
        assert digits + [rest[0]] + rest[1..] == digits + rest;
      }
    }
  }

  lemma {:induction false} DigitsAreCollected(digits: string, more: string, rest: string, some: bool)
    requires AreDigits(digits) && AreDigits(more)
    ensures AreDigits(digits + more)
    ensures Scan(digits, more + rest, some) == Scan(digits + more, rest, some)
    decreases |more|
  {
    if more == "" {
      assert more + rest == rest && digits + more == digits;
    } else {
      DigitsAreCollected(digits + [more[0]], more[1..], rest, some);
      assert (more + rest)[1..] == more[1..] + rest;
      assert digits + [more[0]] + more[1..] == digits + more;
    }
  }

  lemma RenderCons(parts: seq<Part>)
    requires parts != []
    ensures Render(parts) == parts[0].digits + ([parts[0].symbol] + Render(parts[1..]))
  {
  }

  lemma PartIsScanned(p: Part, rest: string, more: seq<Part>, some: bool)
    requires IsPart(p) && Scan("", rest, true) == Success(more)
    ensures Scan(p.digits, [p.symbol] + rest, some) == Success([p] + more)
  {
    var all := [p.symbol] + rest;
    assert all[0] == p.symbol && all[1..] == rest;
    assert !IsDigit(p.symbol);
  }

  lemma {:induction false} RenderedIsScanned(parts: seq<Part>, some: bool)
    requires AreParts(parts) && (some || parts != [])
    ensures Scan("", Render(parts), some) == Success(parts)
    decreases |parts|
  {
    if parts != [] {
      var p, rest := parts[0], Render(parts[1..]);
      assert IsPart(p);
      RenderedIsScanned(parts[1..], true);
      assert "" + p.digits == p.digits;
      DigitsAreCollected("", p.digits, [p.symbol] + rest, some);
      RenderCons(parts);
      PartIsScanned(p, rest, parts[1..], some);
      assert [p] + parts[1..] == parts;
    }
  }

  /** A string parses exactly when it is one or more numbers with units, and in one way only. */
  lemma ParsesIff(s: string, parts: seq<Part>)
    ensures Scan("", s, false) == Success(parts) <==> parts != [] && AreParts(parts) && s == Render(parts)
  {
    ScanGivesParts("", s, false);
    ScanRendersBack("", s, false);
    if parts != [] && AreParts(parts) && s == Render(parts) {
      RenderedIsScanned(parts, false);
    }
  }

  // ----- Written out in days, hours, minutes and seconds

  lemma {:induction false} DecimalIsRead(n: nat)
    ensures Decimal(n) != "" && AreDigits(Decimal(n)) && Value(Decimal(n)) == n
  {
    if n < 10 {
      assert Decimal(n)[..0] == "";
    } else {
      DecimalIsRead(n / 10);
      assert Decimal(n)[..|Decimal(n)| - 1] == Decimal(n / 10);
    }
  }

  /** One number with its unit, in front of others. */
  lemma UnitInFront(n: nat, symbol: char, more: seq<Part>)
    requires n < U64 && UnitSeconds(symbol).Some? && AreParts(more)
    ensures var parts := [Part(Decimal(n), symbol)] + more;
            && AreParts(parts) && Render(parts) == Decimal(n) + [symbol] + Render(more)
            && Seconds(parts) == n * UnitSeconds(symbol).value + Seconds(more)
  {
    DecimalIsRead(n);
    assert ([Part(Decimal(n), symbol)] + more)[1..] == more;
  }

  function InUnits(d: nat, h: nat, m: nat, s: nat): string {
    Decimal(d) + ['d'] + (Decimal(h) + ['h'] + (Decimal(m) + ['m'] + (Decimal(s) + ['s'])))
  }

  lemma PartsInUnits(d: nat, h: nat, m: nat, s: nat) returns (parts: seq<Part>)
    requires d < U64 && h < U64 && m < U64 && s < U64
    ensures parts != [] && AreParts(parts) && Render(parts) == InUnits(d, h, m, s)
    ensures Seconds(parts) == d * 86400 + h * 3600 + m * 60 + s
  {
    UnitInFront(s, 's', []);
    parts := [Part(Decimal(s), 's')] + [];
    assert Render(parts) == Decimal(s) + ['s'];
    UnitInFront(m, 'm', parts);
    parts := [Part(Decimal(m), 'm')] + parts;
    UnitInFront(h, 'h', parts);
    parts := [Part(Decimal(h), 'h')] + parts;
    UnitInFront(d, 'd', parts);
    parts := [Part(Decimal(d), 'd')] + parts;
  }

  /** A duration written out in units is read back as the time it stands for. */
  lemma {:induction false} UnitsAreRead(d: nat, h: nat, m: nat, s: nat)
    requires d < U64 && h < U64 && m < U64 && s < U64
    ensures var r := Scan("", InUnits(d, h, m, s), false);
            r.Success? && AreParts(r.value) && Seconds(r.value) == d * 86400 + h * 3600 + m * 60 + s
  {
    var parts := PartsInUnits(d, h, m, s);
    ParsesIff(InUnits(d, h, m, s), parts);
  }
}
