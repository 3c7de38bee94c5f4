/**
 * Temporal cells on the wire: the fake server's encoder and the client's decoder, on the digit strings themselves.
 * A moment is a number of microseconds, counted from midnight or from 1970; `None` stands for a Python exception.
 */
module Temporal {
  import opened Wrappers
  import opened Digits

  const MICROS: int := 1_000_000
  const MINUTE: int := 60_000_000
  const DAY: int := 86_400_000_000

  /** `datetime.min` and `datetime.max`, from the epoch. */
  const MIN_MICROS: int := -62_135_596_800_000_000
  const MAX_MICROS: int := 253_402_300_799_999_999

  predicate InRange(micros: int) {
    MIN_MICROS <= micros <= MAX_MICROS
  }

  // ---------------------------------------------------------------- str.partition

  function Position(s: string, c: char): (k: nat)
    ensures k <= |s|
  {
    if s == "" || s[0] == c then 0 else 1 + Position(s[1..], c)
  }

  function Before(s: string, c: char): string {
    s[..Position(s, c)]
  }

  function After(s: string, c: char): string {
    if Position(s, c) == |s| then "" else s[Position(s, c) + 1..]
  }

  lemma {:induction false} FirstPosition(a: string, c: char, rest: string)
    requires c !in a && (rest == "" || rest[0] == c)
    ensures Position(a + rest, c) == |a|
  {
    if a == "" {
      assert a + rest == rest;
    } else {
      assert (a + rest)[1..] == a[1..] + rest;
      FirstPosition(a[1..], c, rest);
    }
  }

  lemma PartitionAt(a: string, c: char, b: string)
    requires c !in a
    ensures Before(a + [c] + b, c) == a && After(a + [c] + b, c) == b
    ensures Before(a, c) == a && After(a, c) == ""
  {
    FirstPosition(a, c, [c] + b);
    assert a + [c] + b == a + ([c] + b);
    FirstPosition(a, c, "");
    assert a + "" == a;
  }

  // ---------------------------------------------------------------- the decoder

  const NINE_ZEROS: string := "000000000"

  /** `_split_seconds`: whole seconds, and nanoseconds with the same sign. */
  function SplitSeconds(value: string): Option<(int, int)> {
    var fraction := After(value, '.');
    match ParseInt(Before(value, '.'))
    case None => None
    case Some(whole) =>
      match if fraction == "" then Some(0) else ParseInt((fraction + NINE_ZEROS)[..9])
      case None => None
      case Some(nanos) => Some((whole, if value != "" && value[0] == '-' then -nanos else nanos))
  }

  /** `_nanos_to_micros`: Python's `//` on the magnitude, so truncation toward zero. */
  function NanosToMicros(nanos: int): int {
    if nanos >= 0 then nanos / 1000 else -((-nanos) / 1000)
  }

  /** The microseconds a numeric wire string stands for. */
  function DecodeEpoch(value: string): Option<int> {
    match SplitSeconds(value)
    case None => None
    case Some((seconds, nanos)) => Some(seconds * MICROS + NanosToMicros(nanos))
  }

  /** `_decode_timestamp_ntz` and `_decode_timestamp_ltz`. */
  function DecodeTimestamp(value: string): Option<int> {
    match DecodeEpoch(value)
    case None => None
    case Some(micros) => if InRange(micros) then Some(micros) else None
  }

  /** An aware datetime: its wall clock, and how far that is ahead of UTC. */
  datatype Aware = Aware(local: int, offset: int)
  {
    function Instant(): int {
      local - offset
    }

    predicate Valid() {
      InRange(local) && -DAY < offset < DAY
    }
  }

  /** `instant.astimezone(timezone(timedelta(minutes)))`. */
  function InZone(instant: int, minutes: int): (r: Option<Aware>)
    ensures r.Some? ==> r.value.Valid()
  {
    var local := instant + minutes * MINUTE;
    if -1440 < minutes < 1440 && InRange(local) then Some(Aware(local, minutes * MINUTE)) else None
  }

  /** `_decode_timestamp_tz`. `timezone()` wants less than a day, and `astimezone` a year from 1 to 9999. */
  function DecodeTz(value: string): (r: Option<Aware>)
    ensures r.Some? ==> r.value.Valid()
  {
    match DecodeTimestamp(Before(value, ' '))
    case None => None
    case Some(instant) =>
      if After(value, ' ') == "" then Some(Aware(instant, 0))
      else match ParseInt(After(value, ' '))
        case None => None
        case Some(m) => InZone(instant, m - 1440)
  }

  datatype Time = Time(hour: int, minute: int, second: int, micro: int)
  {
    predicate Valid() {
      0 <= hour < 24 && 0 <= minute < 60 && 0 <= second < 60 && 0 <= micro < MICROS
    }
  }

  /** `_decode_time`: hours wrap around at midnight, and `time()` refuses a negative fraction. */
  function DecodeTime(value: string): (r: Option<Time>)
    ensures r.Some? ==> r.value.Valid()
  {
    match SplitSeconds(value)
    case None => None
    case Some((seconds, nanos)) =>
      var t := Time(seconds / 3600 % 24, seconds % 3600 / 60, seconds % 3600 % 60, NanosToMicros(nanos));
      if 0 <= t.micro < MICROS then Some(t) else None
  }

  // ---------------------------------------------------------------- the encoder

  /** `_epoch_string`. */
  function EpochString(micros: int): string {
    var size: nat := if micros < 0 then -micros else micros;
    var seconds, fraction := size / MICROS, size % MICROS;
    if fraction == 0 then
      if micros < 0 && seconds != 0 then "-" + Str(seconds) else Str(seconds)
    else
      var body := Str(seconds) + "." + Padded(fraction, 6);
      if micros < 0 then "-" + body else body
  }

  /** The wire string of an aware datetime; its UTC form must exist. */
  function EncodeTz(v: Aware): Option<string>
    requires v.Valid()
  {
    if InRange(v.Instant()) then Some(EpochString(v.Instant()) + " " + IntStr(v.offset / MINUTE + 1440)) else None
  }

  function EncodeTime(t: Time): string
    requires t.Valid()
  {
    Str(t.hour * 3600 + t.minute * 60 + t.second) + FractionOf(t.micro)
  }

  /** `_fraction`. */
  function FractionOf(micro: nat): string
    requires micro < 1_000_000
  {
    if micro == 0 then "" else "." + Padded(micro, 6)
  }

  // ---------------------------------------------------------------- round trips

  lemma DigitsOnly(s: string, c: char)
    requires AllDigits(s) && !IsDigit(c)
    ensures c !in s
  {
  }

  function Signed(negative: bool, digits: string): string {
    if negative then "-" + digits else digits
  }

  lemma ParseSigned(negative: bool, digits: string)
    requires digits != "" && AllDigits(digits)
    ensures ParseInt(Signed(negative, digits)) == Some(Negated(negative, Val(digits)))
    ensures Signed(negative, digits)[0] == '-' <==> negative
    ensures '.' !in Signed(negative, digits) && ' ' !in Signed(negative, digits)
  {
    assert ("-" + digits)[1..] == digits;
    assert IsDigit(digits[0]);
    DigitsOnly(digits, '.');
    DigitsOnly(digits, ' ');
  }

  lemma SplitWhole(whole: string, w: int)
    requires '.' !in whole && ParseInt(whole) == Some(w)
    ensures SplitSeconds(whole) == Some((w, 0))
  {
    PartitionAt(whole, '.', "");
  }

  lemma SplitParts(whole: string, fraction: string, w: int, n: int)
    requires '.' !in whole && ParseInt(whole) == Some(w) && whole != ""
    requires fraction != "" && ParseInt((fraction + NINE_ZEROS)[..9]) == Some(n)
    ensures SplitSeconds(whole + ['.'] + fraction) == Some((w, if whole[0] == '-' then -n else n))
  {
    PartitionAt(whole, '.', fraction);
  }

  lemma {:induction false} ZerosVal(k: nat)
    requires k <= 9
    ensures Pow10(k) == [1, 10, 100, 1_000, 10_000, 100_000, 1_000_000, 10_000_000, 100_000_000, 1_000_000_000][k]
  {
    if k > 0 {
      ZerosVal(k - 1);
    }
  }

  /** The nanoseconds that fraction digits stand for; those after the ninth are dropped. */
  function Nanos(fraction: string): nat
    requires AllDigits(fraction)
  {
    if |fraction| <= 9 then Val(fraction) * Pow10(9 - |fraction|) else Val(fraction[..9])
  }

  lemma PadNanos(fraction: string)
    requires AllDigits(fraction)
    ensures ParseInt((fraction + NINE_ZEROS)[..9]) == Some(Nanos(fraction))
  {
    if |fraction| <= 9 {
      PadShort(fraction);
    } else {
      assert (fraction + NINE_ZEROS)[..9] == fraction[..9];
    }
  }

  lemma PadShort(fraction: string)
    requires AllDigits(fraction) && |fraction| <= 9
    ensures ParseInt((fraction + NINE_ZEROS)[..9]) == Some(Nanos(fraction))
  {
    var zeros := NINE_ZEROS[..9 - |fraction|];
    assert (fraction + NINE_ZEROS)[..9] == fraction + zeros;
    ValAppendZeros(fraction, zeros);
  }

  /** Division by a thousand, truncating toward zero. */
  function Thousandth(n: int): int {
    if n >= 0 then n / 1000 else -(-n / 1000)
  }

  function Negated(negative: bool, n: int): int {
    if negative then -n else n
  }

  lemma TruncateParts(negative: bool, w: nat, n: nat)
    ensures Negated(negative, w) * 1_000_000 + NanosToMicros(Negated(negative, n))
         == Thousandth(Negated(negative, w * 1_000_000_000 + n))
  {
    assert (w * 1_000_000_000 + n) / 1000 == w * 1_000_000 + n / 1000;
  }

  lemma DecodeParts(value: string, negative: bool, w: nat, n: nat)
    requires SplitSeconds(value) == Some((Negated(negative, w), Negated(negative, n)))
    ensures DecodeEpoch(value) == Some(Thousandth(Negated(negative, w * 1_000_000_000 + n)))
  {
    TruncateParts(negative, w, n);
  }

  function TotalNanos(seconds: string, fraction: string): nat
    requires AllDigits(seconds) && AllDigits(fraction)
  {
    Val(seconds) * 1_000_000_000 + Nanos(fraction)
  }

  lemma SplitSigned(negative: bool, seconds: string, fraction: string)
    requires seconds != "" && AllDigits(seconds) && AllDigits(fraction) && fraction != ""
    ensures SplitSeconds(Signed(negative, seconds) + ['.'] + fraction)
         == Some((Negated(negative, Val(seconds)), Negated(negative, Nanos(fraction))))
  {
    ParseSigned(negative, seconds);
    PadNanos(fraction);
    SplitParts(Signed(negative, seconds), fraction, Negated(negative, Val(seconds)), Nanos(fraction));
  }

  lemma DecodeThousandth(negative: bool, seconds: string, fraction: string)
    requires seconds != "" && AllDigits(seconds) && AllDigits(fraction) && fraction != ""
    ensures DecodeEpoch(Signed(negative, seconds) + ['.'] + fraction)
         == Some(Thousandth(Negated(negative, TotalNanos(seconds, fraction))))
  {
    SplitSigned(negative, seconds, fraction);
    DecodeParts(Signed(negative, seconds) + ['.'] + fraction, negative, Val(seconds), Nanos(fraction));
  }

  lemma TowardZero(value: string, negative: bool, total: nat)
    requires DecodeEpoch(value) == Some(Thousandth(Negated(negative, total)))
    ensures DecodeEpoch(value) == Some(Negated(negative, total / 1000))
  {
  }

  /**
   * Any signed decimal decodes to its total nanoseconds divided by a thousand, truncated toward zero; fraction digits
   * after the ninth are dropped.
   */
  lemma DecodeTruncates(negative: bool, seconds: string, fraction: string)
    requires seconds != "" && AllDigits(seconds) && AllDigits(fraction) && fraction != ""
    ensures
      var micros := TotalNanos(seconds, fraction) / 1000;
      DecodeEpoch(Signed(negative, seconds) + ['.'] + fraction) == Some(Negated(negative, micros))
  {
    DecodeThousandth(negative, seconds, fraction);
    TowardZero(Signed(negative, seconds) + ['.'] + fraction, negative, TotalNanos(seconds, fraction));
  }

  /** And without a fraction, to its seconds. */
  lemma DecodeWhole(negative: bool, seconds: string)
    requires seconds != "" && AllDigits(seconds)
    ensures DecodeEpoch(Signed(negative, seconds)) == Some(Negated(negative, Val(seconds)) * 1_000_000)
  {
    ParseSigned(negative, seconds);
    SplitWhole(Signed(negative, seconds), Negated(negative, Val(seconds)));
  }

  lemma SixDigits(micros: nat)
    requires micros < 1_000_000
    ensures AllDigits(Padded(micros, 6)) && Nanos(Padded(micros, 6)) == micros * 1000
  {
    ZerosVal(6);
    ZerosVal(3);
    ValPadded(micros, 6);
  }

  lemma SixTotal(s: nat, f: nat)
    requires f < 1_000_000
    ensures TotalNanos(Str(s), Padded(f, 6)) == s * 1_000_000_000 + f * 1000
  {
    SixDigits(f);
    ValStr(s);
  }

  /** The text of a signed number of seconds and microseconds. */
  function Form(negative: bool, s: nat, f: nat): string {
    if f == 0 then Signed(negative, Str(s)) else Signed(negative, Str(s)) + ['.'] + Padded(f, 6)
  }

  lemma EpochForm(micros: int) returns (s: nat, f: nat)
    ensures f < 1_000_000 && micros == Negated(micros < 0, s * 1_000_000 + f)
    ensures EpochString(micros) == Form(micros < 0, s, f)
  {
    var size: nat := if micros < 0 then -micros else micros;
    s, f := size / MICROS, size % MICROS;
    assert "-" + (Str(s) + "." + Padded(f, 6)) == "-" + Str(s) + ['.'] + Padded(f, 6);
  }

  lemma ThousandthOf(negative: bool, s: nat, f: nat)
    ensures Thousandth(Negated(negative, s * 1_000_000_000 + f * 1000)) == Negated(negative, s * 1_000_000 + f)
  {
  }

  lemma DecodeTotal(value: string, negative: bool, total: nat, s: nat, f: nat)
    requires DecodeEpoch(value) == Some(Thousandth(Negated(negative, total))) && total == s * 1_000_000_000 + f * 1000
    ensures DecodeEpoch(value) == Some(Negated(negative, s * 1_000_000 + f))
  {
    ThousandthOf(negative, s, f);
  }

  lemma DecodeFraction(negative: bool, s: nat, f: nat)
    requires 0 < f < 1_000_000
    ensures DecodeEpoch(Signed(negative, Str(s)) + ['.'] + Padded(f, 6)) == Some(Negated(negative, s * 1_000_000 + f))
  {
    var value := Signed(negative, Str(s)) + ['.'] + Padded(f, 6);
    SixTotal(s, f);
    DecodeThousandth(negative, Str(s), Padded(f, 6));
    DecodeTotal(value, negative, TotalNanos(Str(s), Padded(f, 6)), s, f);
  }

  lemma DecodeForm(negative: bool, s: nat, f: nat)
    requires f < 1_000_000
    ensures DecodeEpoch(Form(negative, s, f)) == Some(Negated(negative, s * 1_000_000 + f))
  {
    if f == 0 {
      ValStr(s);
      DecodeWhole(negative, Str(s));
    } else {
      DecodeFraction(negative, s, f);
    }
  }

  /** Decoding inverts the encoder on every whole number of microseconds, those in (-1 s, 0) included. */
  lemma EpochRoundTrip(micros: int)
    ensures DecodeEpoch(EpochString(micros)) == Some(micros)
  {
    var s, f := EpochForm(micros);
    DecodeForm(micros < 0, s, f);
  }

  /** Naive datetimes, and any datetime as an absolute instant, come back exactly. */
  lemma TimestampRoundTrip(micros: int)
    requires InRange(micros)
    ensures DecodeTimestamp(EpochString(micros)) == Some(micros)
  {
    EpochRoundTrip(micros);
  }

  lemma EpochHasNoSpace(micros: int)
    ensures ' ' !in EpochString(micros)
  {
    var s, f := EpochForm(micros);
    ParseSigned(micros < 0, Str(s));
    DigitsOnly(Padded(f, 6), ' ');
  }

  lemma TzText(v: Aware)
    requires v.Valid() && InRange(v.Instant())
    ensures
      var text, offset := EncodeTz(v).value, IntStr(v.offset / MINUTE + 1440);
      && DecodeTimestamp(Before(text, ' ')) == Some(v.Instant())
      && After(text, ' ') == offset && offset != "" && ParseInt(offset) == Some(v.offset / MINUTE + 1440)
  {
    var text, offset := EpochString(v.Instant()), IntStr(v.offset / MINUTE + 1440);
    EpochHasNoSpace(v.Instant());
    PartitionAt(text, ' ', offset);
    assert text + " " + offset == text + [' '] + offset;
    TimestampRoundTrip(v.Instant());
    ParseIntStr(v.offset / MINUTE + 1440);
  }

  /** Seconds beyond the whole minute of an offset, which the wire form cannot carry. */
  function Beyond(offset: int): int {
    offset % MINUTE
  }

  lemma ZoneExact(v: Aware, r: Option<Aware>)
    requires v.Valid() && InRange(v.Instant()) && r == InZone(v.Instant(), v.offset / MINUTE)
    ensures r.Some? <==> v.offset >= -1439 * MINUTE && v.local - Beyond(v.offset) >= MIN_MICROS
    ensures r.Some? ==> r.value.Instant() == v.Instant() && r.value.offset == v.offset - Beyond(v.offset)
    ensures r.Some? && Beyond(v.offset) == 0 ==> r == Some(v)
  {
    assert v.offset / MINUTE * MINUTE == v.offset - Beyond(v.offset) && 0 <= Beyond(v.offset) < MINUTE;
  }

  lemma TzDecodes(v: Aware)
    requires v.Valid() && InRange(v.Instant())
    ensures DecodeTz(EncodeTz(v).value) == InZone(v.Instant(), v.offset / MINUTE)
  {
    TzText(v);
  }

  /**
   * An aware datetime that could be encoded comes back exactly if its offset is not below -23:59 and its wall clock,
   * less the part of the offset beyond whole minutes, is not before year 1; then the instant is the same, and the offset is the
   * whole minutes of the old one, rounded down. Otherwise decoding raises.
   */
  lemma TzRoundTrip(v: Aware)
    requires v.Valid() && EncodeTz(v).Some?
    ensures
      var r := DecodeTz(EncodeTz(v).value);
      && (r.Some? <==> v.offset >= -1439 * MINUTE && v.local - Beyond(v.offset) >= MIN_MICROS)
      && (r.Some? ==> r.value.Instant() == v.Instant() && r.value.offset == v.offset - Beyond(v.offset))
      && (r.Some? && Beyond(v.offset) == 0 ==> r == Some(v))
  {
    TzDecodes(v);
    ZoneExact(v, DecodeTz(EncodeTz(v).value));
  }

  /** The condition of `TzRoundTrip`, when it fails. */
  lemma TzFails(v: Aware)
    requires v.Valid() && InRange(v.Instant())
    requires v.offset < -1439 * MINUTE || v.local - Beyond(v.offset) < MIN_MICROS
    ensures EncodeTz(v).Some? && DecodeTz(EncodeTz(v).value).None?
  {
    TzRoundTrip(v);
  }

  /** A cell without an offset is a moment in UTC. */
  lemma NoOffsetIsUtc(micros: int)
    ensures DecodeTz(EpochString(micros)) == if InRange(micros) then Some(Aware(micros, 0)) else None
  {
    EpochHasNoSpace(micros);
    PartitionAt(EpochString(micros), ' ', "");
    EpochRoundTrip(micros);
  }

  /** The instant is not always preserved: this datetime encodes, and its wire string does not decode. */
  lemma TzCanFail(v: Aware)
    requires v == Aware(0, -86_399_000_000)
    ensures v.Valid() && EncodeTz(v).Some? && DecodeTz(EncodeTz(v).value).None?
  {
    TzFails(v);
  }

  /** Nor does this one, at the start of year 1. */
  lemma TzCanUnderflow(v: Aware)
    requires v == Aware(-62_135_596_800_000_000, -1_000_000)
    ensures v.Valid() && EncodeTz(v).Some? && DecodeTz(EncodeTz(v).value).None?
  {
    TzFails(v);
  }

  // ---------------------------------------------------------------- times of day

  lemma ClockParts(h: nat, m: nat, s: nat)
    requires h < 24 && m < 60 && s < 60
    ensures
      var total := h * 3600 + m * 60 + s;
      total / 3600 % 24 == h && total % 3600 / 60 == m && total % 3600 % 60 == s
  {
  }

  lemma WholeText(seconds: nat)
    ensures SplitSeconds(Str(seconds)) == Some((seconds, 0))
  {
    ValStr(seconds);
    ParseSigned(false, Str(seconds));
    SplitWhole(Str(seconds), seconds);
  }

  lemma FractionText(seconds: nat, micro: nat)
    requires micro < 1_000_000
    ensures SplitSeconds(Str(seconds) + ['.'] + Padded(micro, 6)) == Some((seconds, micro * 1000))
  {
    ValStr(seconds);
    SixDigits(micro);
    SplitSigned(false, Str(seconds), Padded(micro, 6));
  }

  lemma SecondsText(seconds: nat, micro: nat, value: string)
    requires micro < 1_000_000
    requires value == if micro == 0 then Str(seconds) else Str(seconds) + ['.'] + Padded(micro, 6)
    ensures SplitSeconds(value) == Some((seconds, micro * 1000))
  {
    if micro == 0 {
      WholeText(seconds);
    } else {
      FractionText(seconds, micro);
    }
  }

  lemma FractionForm(whole: string, micro: nat)
    requires micro < 1_000_000
    ensures whole + FractionOf(micro) == if micro == 0 then whole else whole + ['.'] + Padded(micro, 6)
  {
  }

  lemma DecodeClock(value: string, t: Time)
    requires t.Valid() && SplitSeconds(value) == Some((t.hour * 3600 + t.minute * 60 + t.second, t.micro * 1000))
    ensures DecodeTime(value) == Some(t)
  {
    ClockParts(t.hour, t.minute, t.second);
  }

  lemma TimeRoundTrip(t: Time)
    requires t.Valid()
    ensures DecodeTime(EncodeTime(t)) == Some(t)
  {
    var seconds := t.hour * 3600 + t.minute * 60 + t.second;
    FractionForm(Str(seconds), t.micro);
    SecondsText(seconds, t.micro, EncodeTime(t));
    DecodeClock(EncodeTime(t), t);
  }

  /**
   * Of a signed decimal, the time of day is its whole seconds wrapped around at midnight and its fraction cut to
   * microseconds; a negative one raises unless that is zero.
   */
  lemma DecodeTimeExactly(negative: bool, seconds: string, fraction: string)
    requires seconds != "" && AllDigits(seconds) && AllDigits(fraction) && fraction != ""
    ensures
      var r := DecodeTime(Signed(negative, seconds) + ['.'] + fraction);
      && (r.None? <==> negative && Nanos(fraction) >= 1000)
      && (r.Some? ==> r.value.micro == Nanos(fraction) / 1000)
      && (r.Some? ==> r.value.hour * 3600 + r.value.minute * 60 + r.value.second
                      == Negated(negative, Val(seconds)) % 86400)
  {
    SplitSigned(negative, seconds, fraction);
    NanosBound(fraction);
    ClockSplit(Signed(negative, seconds) + ['.'] + fraction, negative, Negated(negative, Val(seconds)), Nanos(fraction));
  }

  lemma ClockSplit(value: string, negative: bool, s: int, n: nat)
    requires SplitSeconds(value) == Some((s, Negated(negative, n))) && n < 1_000_000_000
    ensures
      var r := DecodeTime(value);
      && (r.None? <==> negative && n >= 1000)
      && (r.Some? ==> r.value.micro == n / 1000)
      && (r.Some? ==> r.value.hour * 3600 + r.value.minute * 60 + r.value.second == s % 86400)
  {
    ClockOf(s);
  }

  lemma ClockOf(s: int)
    ensures s / 3600 % 24 * 3600 + s % 3600 / 60 * 60 + s % 3600 % 60 == s % 86400
  {
  }

  lemma NanosBound(fraction: string)
    requires AllDigits(fraction)
    ensures Nanos(fraction) < 1_000_000_000
  {
    PadNanos(fraction);
    ValBelow((fraction + NINE_ZEROS)[..9]);
    ZerosVal(9);
  }

  // ---------------------------------------------------------------- bound values coming back as results

  /** `_epoch_nanos`, as a bind value: nanoseconds, where results come in seconds. */
  function BindTimestamp(micros: int): string {
    IntStr(micros * 1000)
  }

  /** Python's `round` of an offset in minutes: to the nearest, ties to even. */
  function RoundMinutes(offset: int): int {
    var q, r := offset / MINUTE, offset % MINUTE;
    if 2 * r < MINUTE || (2 * r == MINUTE && q % 2 == 0) then q else q + 1
  }

  function BindTz(v: Aware): string {
    BindTimestamp(v.Instant()) + " " + IntStr(RoundMinutes(v.offset) + 1440)
  }

  /** Nanoseconds as the result format has them: signed seconds with nine fraction digits. */
  function ResultText(nanos: int): string {
    var size: nat := if nanos < 0 then -nanos else nanos;
    Signed(nanos < 0, Str(size / 1_000_000_000)) + ['.'] + Padded(size % 1_000_000_000, 9)
  }

  lemma ResultParts(nanos: int) returns (s: nat, f: nat)
    ensures f < 1_000_000_000 && nanos == Negated(nanos < 0, s * 1_000_000_000 + f)
    ensures ResultText(nanos) == Signed(nanos < 0, Str(s)) + ['.'] + Padded(f, 9)
  {
    var size: nat := if nanos < 0 then -nanos else nanos;
    s, f := size / 1_000_000_000, size % 1_000_000_000;
  }

  lemma NineTotal(s: nat, f: nat)
    requires f < 1_000_000_000
    ensures TotalNanos(Str(s), Padded(f, 9)) == s * 1_000_000_000 + f
  {
    ZerosVal(9);
    ZerosVal(0);
    ValPadded(f, 9);
    ValStr(s);
  }

  /** Any number of nanoseconds, rendered as a result, decodes to its microseconds, truncated toward zero. */
  lemma ResultDecodes(nanos: int)
    ensures DecodeEpoch(ResultText(nanos)) == Some(Thousandth(nanos))
  {
    var s, f := ResultParts(nanos);
    NineTotal(s, f);
    DecodeThousandth(nanos < 0, Str(s), Padded(f, 9));
    SameTotal(ResultText(nanos), nanos < 0, TotalNanos(Str(s), Padded(f, 9)), nanos);
  }

  lemma SameTotal(value: string, negative: bool, total: nat, nanos: int)
    requires DecodeEpoch(value) == Some(Thousandth(Negated(negative, total))) && nanos == Negated(negative, total)
    ensures DecodeEpoch(value) == Some(Thousandth(nanos))
  {
  }

  lemma ThousandthExact(micros: int)
    ensures Thousandth(micros * 1000) == micros
  {
  }

  /** A datetime bound as a parameter and selected back is unchanged. */
  lemma BoundTimestampReturns(micros: int)
    ensures ParseInt(BindTimestamp(micros)) == Some(micros * 1000)
    ensures DecodeEpoch(ResultText(micros * 1000)) == Some(micros)
  {
    ParseIntStr(micros * 1000);
    ResultDecodes(micros * 1000);
    ThousandthExact(micros);
  }

  lemma RoundNear(offset: int)
    ensures var m := RoundMinutes(offset) * MINUTE; -MINUTE <= 2 * (m - offset) <= MINUTE
  {
  }

  /** An offset halfway between two minutes is sent as the even one. */
  lemma HalfToEven(q: int)
    ensures RoundMinutes(q * 60_000_000 + 30_000_000) == if q % 2 == 0 then q else q + 1
  {
    assert (q * MINUTE + 30_000_000) / MINUTE == q && (q * MINUTE + 30_000_000) % MINUTE == 30_000_000;
  }

  lemma IntStrNoSpace(n: int)
    ensures ' ' !in IntStr(n)
  {
    if n < 0 {
      DigitsOnly(Str(-n), ' ');
    } else {
      DigitsOnly(Str(n), ' ');
    }
  }

  lemma ResultHasNoSpace(nanos: int)
    ensures ' ' !in ResultText(nanos)
  {
    var s, f := ResultParts(nanos);
    ParseSigned(nanos < 0, Str(s));
    DigitsOnly(Padded(f, 9), ' ');
  }

  lemma DecodeTzText(text: string, instant: int, m: int)
    requires ' ' !in text && DecodeEpoch(text) == Some(instant)
    ensures DecodeTz(text + [' '] + IntStr(m + 1440)) == if InRange(instant) then InZone(instant, m) else None
  {
    PartitionAt(text, ' ', IntStr(m + 1440));
    ParseIntStr(m + 1440);
  }

  lemma BoundParts(v: Aware)
    ensures
      var text := BindTz(v);
      && ParseInt(Before(text, ' ')) == Some(v.Instant() * 1000)
      && ParseInt(After(text, ' ')) == Some(RoundMinutes(v.offset) + 1440)
  {
    IntStrNoSpace(v.Instant() * 1000);
    PartitionAt(BindTimestamp(v.Instant()), ' ', IntStr(RoundMinutes(v.offset) + 1440));
    ParseIntStr(v.Instant() * 1000);
    ParseIntStr(RoundMinutes(v.offset) + 1440);
    assert BindTimestamp(v.Instant()) + " " + IntStr(RoundMinutes(v.offset) + 1440)
        == BindTimestamp(v.Instant()) + [' '] + IntStr(RoundMinutes(v.offset) + 1440);
  }

  /**
   * An aware datetime bound as a parameter carries its instant and its offset rounded to minutes; selected back with
   * these, it decodes exactly if the rounded offset is under a day and both its instant and its wall clock at that
   * offset are in range: then to the same instant, at an offset at most half a minute away.
   */
  lemma BoundTzReturns(v: Aware)
    requires v.Valid()
    ensures
      var m := RoundMinutes(v.offset);
      var r := DecodeTz(ResultText(v.Instant() * 1000) + [' '] + IntStr(m + 1440));
      && (r.Some? <==> InRange(v.Instant()) && -1440 < m < 1440 && InRange(v.Instant() + m * MINUTE))
      && (r.Some? ==> r.value.Instant() == v.Instant() && -MINUTE <= 2 * (r.value.offset - v.offset) <= MINUTE)
  {
    BoundTimestampReturns(v.Instant());
    ResultHasNoSpace(v.Instant() * 1000);
    DecodeTzText(ResultText(v.Instant() * 1000), v.Instant(), RoundMinutes(v.offset));
    RoundNear(v.offset);
  }
}
