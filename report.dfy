/** The substitute "uptime" handler, `uptime_fudger_proc_show`: it sums the idle
    time of every possible CPU, splits it into seconds and nanoseconds, adds the
    `fudge` module parameter to the seconds of both the boot-time clock and the
    idle time, and prints the result in the layout of the kernel's own
    /proc/uptime: `"%lu.%02lu %lu.%02lu\n"`. */
module UptimeReport {
  import opened CInt
  import opened Decimal
  import opened Wrappers

  const NSEC_PER_SEC: int := 1_000_000_000
  /** The divisor that turns nanoseconds into centiseconds. */
  const NSEC_PER_CENTISEC: int := NSEC_PER_SEC / 100

  /** `struct timespec64` of a 64-bit kernel. */
  datatype Timespec64 = Timespec64(tvSec: S64, tvNsec: S64)

  /** What the kernel's clocks promise of the timespecs they fill in. */
  predicate Normalized(t: Timespec64) {
    0 <= t.tvNsec < NSEC_PER_SEC
  }

  /** The four numbers of one report line, as printed. */
  datatype Reading = Reading(uptimeSec: nat, uptimeCentis: nat, idleSec: nat, idleCentis: nat)

  /** The exact sum of the per-CPU idle counters (in nanoseconds). */
  function Sum(counters: seq<U64>): nat {
    if counters == [] then 0 else Sum(counters[..|counters| - 1]) + counters[|counters| - 1]
  }

  /** The quotient and remainder `div_u64_rem` produces. */
  function DivU64Rem(dividend: U64, divisor: U32): (r: (U64, U32))
    requires divisor > 0
    ensures r.0 * divisor + r.1 == dividend && r.1 < divisor
  {
    (dividend / divisor, dividend % divisor)
  }

  /** The idle time as a timespec: whole seconds and the nanosecond remainder. */
  function IdleTimespec(nsec: U64): (idle: Timespec64)
    ensures idle.tvSec * NSEC_PER_SEC + idle.tvNsec == nsec
    ensures 0 <= idle.tvSec && Normalized(idle)
  {
    var (sec, rem) := DivU64Rem(nsec, NSEC_PER_SEC);
    assert sec * NSEC_PER_SEC <= nsec < TWO_TO_THE_64;
    Timespec64(sec, rem)
  }

  /** The printed fractional field: `tv_nsec / (NSEC_PER_SEC / 100)`. */
  function Centis(t: Timespec64): (c: nat)
    requires Normalized(t)
    ensures c < 100
    ensures c * NSEC_PER_CENTISEC <= t.tvNsec < (c + 1) * NSEC_PER_CENTISEC
  {
    t.tvNsec / NSEC_PER_CENTISEC
  }

  /** The line `seq_printf(m, "%lu.%02lu %lu.%02lu\n", ...)` writes. */
  function FormatLine(r: Reading): string {
    FormatLu(r.uptimeSec) + "." + Format02Lu(r.uptimeCentis) + " "
      + FormatLu(r.idleSec) + "." + Format02Lu(r.idleCentis) + "\n"
  }

  /** Every character is a digit, a decimal point or a space. */
  predicate LineChars(s: string) {
    forall i :: 0 <= i < |s| ==> IsDigit(s[i]) || s[i] == '.' || s[i] == ' '
  }

  lemma JoinLineChars(x: string, y: string)
    requires LineChars(x) && LineChars(y)
    ensures LineChars(x + y)
  {
    forall i | 0 <= i < |x + y|
      ensures IsDigit((x + y)[i]) || (x + y)[i] == '.' || (x + y)[i] == ' '
    {
      if i < |x| { assert (x + y)[i] == x[i]; } else { assert (x + y)[i] == y[i - |x|]; }
    }
  }

  /** The shape of every line: digits, exactly two decimal points and one
      space, and a final newline. */
  lemma LineShape(r: Reading)
    ensures var l := FormatLine(r);
      && |l| > 0 && l[|l| - 1] == '\n' && LineChars(l[..|l| - 1])
      && multiset(l)['.'] == 2 && multiset(l)[' '] == 1 && multiset(l)['\n'] == 1
  {
    FieldsShape(FormatLu(r.uptimeSec), Format02Lu(r.uptimeCentis),
                FormatLu(r.idleSec), Format02Lu(r.idleCentis));
  }

  lemma FieldsShape(a: string, b: string, c: string, d: string)
    requires AllDigits(a) && AllDigits(b) && AllDigits(c) && AllDigits(d)
    ensures var l := a + "." + b + " " + c + "." + d + "\n";
      && |l| > 0 && l[|l| - 1] == '\n' && LineChars(l[..|l| - 1])
      && multiset(l)['.'] == 2 && multiset(l)[' '] == 1 && multiset(l)['\n'] == 1
  {
    DigitsHaveNoSeparator(a);
    DigitsHaveNoSeparator(b);
    DigitsHaveNoSeparator(c);
    DigitsHaveNoSeparator(d);
    JoinLineChars(a, ".");
    JoinLineChars(a + ".", b);
    JoinLineChars(a + "." + b, " ");
    JoinLineChars(a + "." + b + " ", c);
    JoinLineChars(a + "." + b + " " + c, ".");
    JoinLineChars(a + "." + b + " " + c + ".", d);
    var body := a + "." + b + " " + c + "." + d;
    var l := body + "\n";
    assert l[..|l| - 1] == body;
    assert multiset(l) == multiset(a) + multiset(b) + multiset(c) + multiset(d)
                          + multiset{'.', ' ', '.', '\n'};
  }

  /** A digit string holds none of the line's separators. */
  lemma DigitsHaveNoSeparator(s: string)
    requires AllDigits(s)
    ensures LineChars(s)
    ensures multiset(s)['.'] == 0 && multiset(s)[' '] == 0 && multiset(s)['\n'] == 0
  {
    assert '.' !in s && ' ' !in s && '\n' !in s;
  }

  lemma CentisBelow100(nsec: int)
    requires 0 <= nsec < NSEC_PER_SEC
    ensures 0 <= nsec / NSEC_PER_CENTISEC < 100
  {
    assert NSEC_PER_CENTISEC == 10_000_000;
  }

  /** What the report means, stated on mathematical integers: the idle total is
      the sum of the counters modulo 2^64; both second counts are raised by
      `fudge` and reduced modulo 2^64 (the unsigned long the line prints); the
      fractions are the centiseconds below the second. */
  function Expected(counters: seq<U64>, uptime: Timespec64, fudge: S64): (r: Reading)
    requires Normalized(uptime)
    ensures r.uptimeCentis < 100 && r.idleCentis < 100
    ensures 0 <= uptime.tvSec + fudge ==> r.uptimeSec == uptime.tvSec + fudge
    ensures uptime.tvSec + fudge < 0 ==> r.uptimeSec == uptime.tvSec + fudge + TWO_TO_THE_64
    ensures var i := (Sum(counters) % TWO_TO_THE_64) / NSEC_PER_SEC;
      (0 <= i + fudge ==> r.idleSec == i + fudge) && (i + fudge < 0 ==> r.idleSec == i + fudge + TWO_TO_THE_64)
  {
    var nsec := Sum(counters) % TWO_TO_THE_64;
    ResidueNearRange(uptime.tvSec + fudge);
    ResidueNearRange(nsec / NSEC_PER_SEC + fudge);
    CentisBelow100(nsec % NSEC_PER_SEC);
    CentisBelow100(uptime.tvNsec);
    Reading((uptime.tvSec + fudge) % TWO_TO_THE_64,
            uptime.tvNsec / NSEC_PER_CENTISEC,
            (nsec / NSEC_PER_SEC + fudge) % TWO_TO_THE_64,
            (nsec % NSEC_PER_SEC) / NSEC_PER_CENTISEC)
  }

  lemma IdleSecondsOf(nsec: U64)
    ensures IdleTimespec(nsec).tvSec == nsec / NSEC_PER_SEC
    ensures IdleTimespec(nsec).tvNsec == nsec % NSEC_PER_SEC
  {
  }

  /** `uptime_fudger_proc_show`: `cpustatIdle` holds `kcpustat_cpu(i).cpustat[CPUTIME_IDLE]`
      for every possible CPU `i`, `uptime` what the boot-time clock returned. The
      text is what `seq_printf` appends to the seq_file. */
  method ProcShow(cpustatIdle: seq<U64>, uptime: Timespec64, fudge: S64) returns (ret: int, text: string)
    requires Normalized(uptime)
    ensures ret == 0
    ensures text == FormatLine(Expected(cpustatIdle, uptime, fudge))
  {
    var nsec: U64 := 0;
    for i := 0 to |cpustatIdle|
      invariant nsec == Sum(cpustatIdle[..i]) % TWO_TO_THE_64
    {
      assert cpustatIdle[..i + 1][..i] == cpustatIdle[..i];
      AccumulateU64(Sum(cpustatIdle[..i]), cpustatIdle[i]);
      nsec := WrapU64(nsec + cpustatIdle[i]);
    }
    assert cpustatIdle[..|cpustatIdle|] == cpustatIdle;

    var idle := IdleTimespec(nsec);

    var uptimeSec := WrapS64(uptime.tvSec + fudge);
    var idleSec := WrapS64(idle.tvSec + fudge);

    ghost var expected := Expected(cpustatIdle, uptime, fudge);
    assert nsec == Sum(cpustatIdle) % TWO_TO_THE_64;
    AddThenCast(uptime.tvSec, fudge);
    assert AsUnsignedLong(uptimeSec) == expected.uptimeSec;
    IdleSecondsOf(nsec);
    AddThenCast(idle.tvSec, fudge);
    assert AsUnsignedLong(idleSec) == expected.idleSec;
    assert Centis(idle) == expected.idleCentis;
    text := FormatLine(Reading(AsUnsignedLong(uptimeSec), Centis(uptime),
                               AsUnsignedLong(idleSec), Centis(idle)));
    ret := 0;
  }

  /** One field of the line as a reader sees it: a run of digits (exactly two
      for a fraction), then the expected separator. Gives the field's value and
      what follows the separator. */
  function Field(s: string, fraction: bool, separator: char): Option<(nat, string)> {
    var span := SpanDigits(s);
    if (if fraction then |span.0| == 2 else span.0 != []) && span.1 != [] && span.1[0] == separator
    then Some((ParseDecimal(span.0), span.1[1..]))
    else None
  }

  /** How a reader of /proc/uptime takes the line apart: two `seconds.centis`
      fields separated by one space and ended by a newline. */
  function ParseLine(s: string): Option<Reading> {
    match Field(s, false, '.')
    case None => None
    case Some((uptimeSec, r1)) =>
      match Field(r1, true, ' ')
      case None => None
      case Some((uptimeCentis, r2)) =>
        match Field(r2, false, '.')
        case None => None
        case Some((idleSec, r3)) =>
          match Field(r3, true, '\n')
          case None => None
          case Some((idleCentis, r4)) =>
            if r4 == [] then Some(Reading(uptimeSec, uptimeCentis, idleSec, idleCentis)) else None
  }

  lemma FieldOf(digits: string, fraction: bool, separator: char, rest: string)
    requires AllDigits(digits) && !IsDigit(separator)
    requires if fraction then |digits| == 2 else digits != []
    ensures Field(digits + [separator] + rest, fraction, separator) == Some((ParseDecimal(digits), rest))
  {
    var tail := [separator] + rest;
    assert digits + [separator] + rest == digits + tail;
    SpanDigitsOf(digits, tail);
    assert tail[0] == separator && tail[1..] == rest;
  }

  /** Every line the handler can print reads back as the four numbers printed:
      the fields are unambiguous and the fractions always take two digits. */
  lemma ParseFormatLine(r: Reading)
    requires r.uptimeCentis < 100 && r.idleCentis < 100
    ensures ParseLine(FormatLine(r)) == Some(r)
  {
    var a, b, c, d := FormatLu(r.uptimeSec), Format02Lu(r.uptimeCentis),
                      FormatLu(r.idleSec), Format02Lu(r.idleCentis);
    Format02LuOfCentis(r.uptimeCentis);
    Format02LuOfCentis(r.idleCentis);
    ParseFormatLu(r.uptimeSec);
    ParseFormatLu(r.idleSec);
    var r3 := d + ['\n'] + [];
    var r2 := c + ['.'] + r3;
    var r1 := b + [' '] + r2;
    assert FormatLine(r) == a + ['.'] + r1;
    FieldOf(a, false, '.', r1);
    FieldOf(b, true, ' ', r2);
    FieldOf(c, false, '.', r3);
    FieldOf(d, true, '\n', []);
  }

  /** A reader of the substitute's output recovers the fudged uptime and idle
      seconds and their centiseconds. */
  lemma ReportReadsBack(cpustatIdle: seq<U64>, uptime: Timespec64, fudge: S64)
    requires Normalized(uptime)
    ensures ParseLine(FormatLine(Expected(cpustatIdle, uptime, fudge))) == Some(Expected(cpustatIdle, uptime, fudge))
  {
    ParseFormatLine(Expected(cpustatIdle, uptime, fudge));
  }

  /** When the idle counters do not overflow their u64 sum and neither fudged
      second count is negative, both seconds are printed exactly as the sum,
      not wrapped; the idle seconds are the idle nanoseconds divided by 10^9. */
  lemma FudgeIsExact(cpustatIdle: seq<U64>, uptime: Timespec64, fudge: S64)
    requires Normalized(uptime)
    requires Sum(cpustatIdle) < TWO_TO_THE_64
    requires 0 <= uptime.tvSec + fudge && 0 <= Sum(cpustatIdle) / NSEC_PER_SEC + fudge
    ensures Expected(cpustatIdle, uptime, fudge).uptimeSec == uptime.tvSec + fudge
    ensures Expected(cpustatIdle, uptime, fudge).idleSec == Sum(cpustatIdle) / NSEC_PER_SEC + fudge
  {
    ResidueNearRange(Sum(cpustatIdle));
    ResidueNearRange(Sum(cpustatIdle) / NSEC_PER_SEC + fudge);
  }

  lemma ExampleReading()
    ensures Expected([50_000_000_000, 30_250_000_000], Timespec64(100, 500_000_000), 3600)
            == Reading(3700, 50, 3680, 25)
  {
    var counters: seq<U64> := [50_000_000_000, 30_250_000_000];
    assert counters[..1] == [50_000_000_000];
    assert counters[..1][..0] == [];
    assert Sum(counters) == 80_250_000_000;
    ResidueNearRange(80_250_000_000);
    ResidueNearRange(3700);
    ResidueNearRange(3680);
  }

  lemma ExampleDigits()
    ensures FormatLu(3700) == "3700" && FormatLu(3680) == "3680"
    ensures Format02Lu(50) == "50" && Format02Lu(25) == "25"
  {
  }

  /** An example: fudge 3600, 100.50 s of uptime and 80.25 s of idle time
      spread over two CPUs. */
  lemma ExampleLine()
    ensures FormatLine(Expected([50_000_000_000, 30_250_000_000], Timespec64(100, 500_000_000), 3600))
            == "3700.50 3680.25\n"
  {
    ExampleReading();
    ExampleDigits();
  }
}
