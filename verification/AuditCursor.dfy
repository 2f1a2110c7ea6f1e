/** `encode_cursor` and `decode_cursor` of src/tta/persistence/audit_repo.py. */
module AuditCursor {
  import opened Wrappers
  import opened Text
  import Base64Url

  /** The zone of a datetime: none, or its offset from UTC. */
  datatype Zone = Naive | Offset(behind: bool, hours: nat, minutes: nat, seconds: nat, micros: nat)

  const UTC := Offset(false, 0, 0, 0, 0)

  /** A datetime, field by field. */
  datatype Stamp = Stamp(
    year: nat, month: nat, day: nat, hour: nat, minute: nat, second: nat, micro: nat, zone: Zone)

  predicate LeapYear(y: nat) {
    y % 4 == 0 && (y % 100 != 0 || y % 400 == 0)
  }

  function DaysInMonth(y: nat, m: nat): nat {
    if m == 2 then (if LeapYear(y) then 29 else 28) else if m in {4, 6, 9, 11} then 30 else 31
  }

  /** Offsets are shorter than a day, and there is no negative zero. */
  predicate ZoneInRange(z: Zone) {
    z.Naive? || (z.hours < 24 && z.minutes < 60 && z.seconds < 60 && z.micros < 1000000
                 && (z.behind ==> z.hours + z.minutes + z.seconds + z.micros > 0))
  }

  predicate InRange(t: Stamp) {
    && 1 <= t.year < 10000 && 1 <= t.month <= 12 && 1 <= t.day <= DaysInMonth(t.year, t.month)
    && t.hour < 24 && t.minute < 60 && t.second < 60 && t.micro < 1000000
    && ZoneInRange(t.zone)
  }

  type Timestamp = t: Stamp | InRange(t) witness Stamp(1, 1, 1, 0, 0, 0, 0, Naive)

  type Aware = t: Timestamp | !t.zone.Naive? witness Stamp(1, 1, 1, 0, 0, 0, 0, UTC)

  function DaysBeforeMonth(y: nat, m: nat): nat {
    if m <= 1 then 0 else DaysBeforeMonth(y, m - 1) + DaysInMonth(y, m - 1)
  }

  function DaysBeforeYear(y: nat): int
    requires y >= 1
  {
    365 * (y - 1) + (y - 1) / 4 - (y - 1) / 100 + (y - 1) / 400
  }

  function Micros(hours: int, minutes: int, seconds: int, micros: int): int {
    ((hours * 60 + minutes) * 60 + seconds) * 1000000 + micros
  }

  /** Microseconds of UTC since the start of year 1. */
  function Instant(t: Aware): int {
    var days := DaysBeforeYear(t.year) + DaysBeforeMonth(t.year, t.month) + t.day - 1;
    var offset := Micros(t.zone.hours, t.zone.minutes, t.zone.seconds, t.zone.micros);
    Micros(24 * days + t.hour, t.minute, t.second, t.micro) - (if t.zone.behind then -offset else offset)
  }

  /** A 128-bit identifier: 32 hexadecimal digits. */
  const UUID_LIMIT: nat := 0x1_0000_0000_0000_0000_0000_0000_0000_0000

  type Uuid = n: nat | n < UUID_LIMIT witness 0

  // ------------------------------------------- writing

  function Fraction(micro: nat, rest: string): string {
    if micro == 0 then rest else "." + (Padded(micro, 10, 6) + rest)
  }

  function OffsetSeconds(seconds: nat, micros: nat): string {
    if seconds == 0 && micros == 0 then "" else ":" + (Padded(seconds, 10, 2) + Fraction(micros, ""))
  }

  function ZoneText(z: Zone): string {
    match z
    case Naive => ""
    case Offset(behind, hours, minutes, seconds, micros) =>
      [if behind then '-' else '+'] + (Padded(hours, 10, 2)
      + (":" + (Padded(minutes, 10, 2) + OffsetSeconds(seconds, micros))))
  }

  /** `datetime.isoformat()`; the fraction is left out when it is zero. */
  function IsoFormat(t: Timestamp): string {
    Padded(t.year, 10, 4) + ("-" + (Padded(t.month, 10, 2) + ("-" + (Padded(t.day, 10, 2) + ("T"
    + (Padded(t.hour, 10, 2) + (":" + (Padded(t.minute, 10, 2) + (":" + (Padded(t.second, 10, 2)
    + Fraction(t.micro, ZoneText(t.zone))))))))))))
  }

  /** `str(uuid)`: the digits in groups of 8, 4, 4, 4 and 12. */
  function UuidText(n: Uuid): string {
    Grouped(Padded(n, 16, 32))
  }

  function Grouped(h: string): string
    requires |h| == 32
  {
    h[..8] + "-" + h[8..12] + "-" + h[12..16] + "-" + h[16..20] + "-" + h[20..]
  }

  function Octets(s: string): seq<Base64Url.Octet>
    requires Ascii(s)
  {
    seq(|s|, i requires 0 <= i < |s| => (assert s[i] in s; OctetOf(s[i])))
  }

  function OctetOf(c: char): Base64Url.Octet
    requires c as int < 128
  {
    c as int
  }

  function FromOctets(b: seq<Base64Url.Octet>): string {
    seq(|b|, i requires 0 <= i < |b| => b[i] as char)
  }

  predicate Ascii(s: string) {
    forall c <- s :: c as int < 128
  }

  // ------------------------------------------- reading

  predicate AllDigits(s: string) {
    forall c <- s :: '0' <= c <= '9'
  }

  /** A number of `width` digits at the front, and what follows it. */
  function ReadNumber(s: string, width: nat): Option<(nat, string)> {
    if |s| < width || !AllDigits(s[..width]) then None
    else Some((ParseDigits(s[..width], 10), s[width..]))
  }

  function ReadChar(s: string, c: char): Option<string> {
    if s == "" || s[0] != c then None else Some(s[1..])
  }

  /** A separator and then a number. */
  function ReadField(s: string, sep: char, width: nat): Option<(nat, string)> {
    match ReadChar(s, sep)
    case None => None
    case Some(rest) => ReadNumber(rest, width)
  }

  /** A fraction, if there is one, and what follows it. */
  function ReadFraction(s: string): Option<(nat, string)> {
    if s == "" || s[0] != '.' then Some((0, s)) else ReadField(s, '.', 6)
  }

  function ReadOffsetSeconds(s: string): Option<(nat, nat)> {
    if s == "" then Some((0, 0))
    else
      match ReadField(s, ':', 2)
      case None => None
      case Some((seconds, rest)) =>
        match ReadFraction(rest)
        case Some((micros, "")) => Some((seconds, micros))
        case _ => None
  }

  function ReadZone(s: string): Option<Zone> {
    if s == "" then Some(Naive)
    else if s[0] != '+' && s[0] != '-' then None
    else
      match ReadNumber(s[1..], 2)
      case None => None
      case Some((hours, s1)) =>
        match ReadField(s1, ':', 2)
        case None => None
        case Some((minutes, s2)) =>
          match ReadOffsetSeconds(s2)
          case None => None
          case Some((seconds, micros)) =>
            Some(Offset(s[0] == '-' && hours + minutes + seconds + micros > 0, hours, minutes, seconds, micros))
  }

  function ParseIso(s: string): Option<Timestamp> {
    match ReadNumber(s, 4)
    case None => None
    case Some((year, s1)) =>
    match ReadField(s1, '-', 2)
    case None => None
    case Some((month, s2)) =>
    match ReadField(s2, '-', 2)
    case None => None
    case Some((day, s3)) =>
    match ReadField(s3, 'T', 2)
    case None => None
    case Some((hour, s4)) =>
    match ReadField(s4, ':', 2)
    case None => None
    case Some((minute, s5)) =>
    match ReadField(s5, ':', 2)
    case None => None
    case Some((second, s6)) =>
    match ReadFraction(s6)
    case None => None
    case Some((micro, s7)) =>
    match ReadZone(s7)
    case None => None
    case Some(zone) =>
      var t := Stamp(year, month, day, hour, minute, second, micro, zone);
      if InRange(t) then Some(t) else None
  }

  function WithoutDashes(s: string): string {
    if s == "" then "" else (if s[0] == '-' then "" else [s[0]]) + WithoutDashes(s[1..])
  }

  function ParseUuid(s: string): Option<Uuid> {
    var h := WithoutDashes(s);
    if |h| != 32 then None
    else
      var n := ParseDigits(h, 16);
      if n < UUID_LIMIT then Some(n) else None
  }

  // ------------------------------------------- the cursor

  function CursorText(t: Timestamp, id: Uuid): string {
    IsoFormat(t) + "|" + UuidText(id)
  }

  function Encode(t: Timestamp, id: Uuid): string {
    CursorIsAscii(t, id);
    Base64Url.Encode(Octets(CursorText(t, id)))
  }

  function Decode(cursor: string): Option<(Timestamp, Uuid)> {
    match Base64Url.Decode(cursor)
    case None => None
    case Some(octets) =>
      var (stamp, id) := Cut(FromOctets(octets), '|');
      match (ParseIso(stamp), ParseUuid(id))
      case (Some(t), Some(n)) => Some((t, n))
      case _ => None
  }

  // ------------------------------------------- round trips

  predicate Digital(s: string) {
    forall c <- s :: c in DIGITS
  }

  lemma {:induction false} PaddedIsDigital(n: nat, base: Base, width: nat)
    ensures Digital(Padded(n, base, width))
    ensures base == 10 ==> AllDigits(Padded(n, base, width))
  {
    if width > 0 {
      PaddedIsDigital(Over(n, base), base, width - 1);
      assert base == 10 ==> '0' <= DIGITS[LastDigit(n, base)] <= '9';
    }
  }

  /** Characters that can stand in a cursor's text on either side of the separator. */
  predicate Clean(s: string) {
    forall c <- s :: c as int < 128 && c != '|'
  }

  lemma DigitalIsClean(s: string)
    requires Digital(s)
    ensures Clean(s) && '-' !in s
  {
    forall c | c in s ensures c as int < 128 && c != '|' && c != '-' {
      var d :| 0 <= d < |DIGITS| && DIGITS[d] == c;
      DigitRoundTrip(d);
    }
  }

  lemma CleanConcat(a: string, b: string)
    requires Clean(a) && Clean(b)
    ensures Clean(a + b)
  {
  }

  lemma FieldIsClean(sep: string, n: nat, width: nat, rest: string)
    requires Clean(sep) && Clean(rest)
    ensures Clean(sep + (Padded(n, 10, width) + rest))
  {
    PaddedIsDigital(n, 10, width);
    DigitalIsClean(Padded(n, 10, width));
    CleanConcat(Padded(n, 10, width), rest);
    CleanConcat(sep, Padded(n, 10, width) + rest);
  }

  lemma FractionIsClean(micro: nat, rest: string)
    requires Clean(rest)
    ensures Clean(Fraction(micro, rest))
  {
    FieldIsClean(".", micro, 6, rest);
  }

  lemma ZoneIsClean(z: Zone)
    ensures Clean(ZoneText(z))
  {
    if z.Offset? {
      FractionIsClean(z.micros, "");
      FieldIsClean(":", z.seconds, 2, Fraction(z.micros, ""));
      var tail := OffsetSeconds(z.seconds, z.micros);
      FieldIsClean(":", z.minutes, 2, tail);
      FieldIsClean([if z.behind then '-' else '+'], z.hours, 2, ":" + (Padded(z.minutes, 10, 2) + tail));
    }
  }

  lemma IsoIsClean(t: Timestamp)
    ensures Clean(IsoFormat(t))
  {
    var s6 := Fraction(t.micro, ZoneText(t.zone));
    ZoneIsClean(t.zone);
    FractionIsClean(t.micro, ZoneText(t.zone));
    FieldIsClean(":", t.second, 2, s6);
    var s5 := ":" + (Padded(t.second, 10, 2) + s6);
    FieldIsClean(":", t.minute, 2, s5);
    var s4 := ":" + (Padded(t.minute, 10, 2) + s5);
    FieldIsClean("T", t.hour, 2, s4);
    var s3 := "T" + (Padded(t.hour, 10, 2) + s4);
    FieldIsClean("-", t.day, 2, s3);
    var s2 := "-" + (Padded(t.day, 10, 2) + s3);
    FieldIsClean("-", t.month, 2, s2);
    var s1 := "-" + (Padded(t.month, 10, 2) + s2);
    FieldIsClean("", t.year, 4, s1);
    assert "" + IsoFormat(t) == IsoFormat(t) == Padded(t.year, 10, 4) + s1;
  }

  lemma UuidIsClean(n: Uuid)
    ensures Clean(UuidText(n))
  {
    PaddedIsDigital(n, 16, 32);
    var h := Padded(n, 16, 32);
    DigitalIsClean(h);
    forall i, j | 0 <= i <= j <= 32 ensures Clean(h[i..j]) {
      assert forall c <- h[i..j] :: c in h;
    }
    assert h[..8] == h[0..8] && h[20..] == h[20..32];
    assert Clean("-") && Clean(h[..8]) && Clean(h[20..]);
    CleanConcat(h[..8], "-");
    CleanConcat(h[..8] + "-", h[8..12]);
    CleanConcat(h[..8] + "-" + h[8..12], "-");
    CleanConcat(h[..8] + "-" + h[8..12] + "-", h[12..16]);
    CleanConcat(h[..8] + "-" + h[8..12] + "-" + h[12..16], "-");
    CleanConcat(h[..8] + "-" + h[8..12] + "-" + h[12..16] + "-", h[16..20]);
    CleanConcat(h[..8] + "-" + h[8..12] + "-" + h[12..16] + "-" + h[16..20], "-");
  }

  lemma CursorIsAscii(t: Timestamp, id: Uuid)
    ensures Ascii(CursorText(t, id)) && '|' !in IsoFormat(t)
  {
    IsoIsClean(t);
    UuidIsClean(id);
  }

  lemma ReadPadded(n: nat, width: nat, rest: string)
    requires n < Power(10, width)
    ensures ReadNumber(Padded(n, 10, width) + rest, width) == Some((n, rest))
  {
    var s := Padded(n, 10, width) + rest;
    assert s[..width] == Padded(n, 10, width) && s[width..] == rest;
    PaddedIsDigital(n, 10, width);
    ParsePadded(n, 10, width);
  }

  lemma ReadPaddedField(sep: char, n: nat, width: nat, rest: string)
    requires n < Power(10, width)
    ensures ReadField([sep] + (Padded(n, 10, width) + rest), sep, width) == Some((n, rest))
  {
    ReadPadded(n, width, rest);
  }

  lemma Powers()
    ensures Power(10, 2) == 100 && Power(10, 4) == 10000 && Power(10, 6) == 1000000
  {
    assert Power(10, 1) == 10 && Power(10, 3) == 1000 && Power(10, 5) == 100000;
  }

  lemma FractionRoundTrip(micro: nat, rest: string)
    requires micro < 1000000 && (rest == "" || rest[0] != '.')
    ensures ReadFraction(Fraction(micro, rest)) == Some((micro, rest))
  {
    Powers();
    if micro != 0 {
      ReadPaddedField('.', micro, 6, rest);
      assert Fraction(micro, rest)[0] == '.';
    }
  }

  lemma OffsetSecondsRoundTrip(seconds: nat, micros: nat)
    requires seconds < 60 && micros < 1000000
    ensures ReadOffsetSeconds(OffsetSeconds(seconds, micros)) == Some((seconds, micros))
  {
    Powers();
    ReadPaddedField(':', seconds, 2, Fraction(micros, ""));
    FractionRoundTrip(micros, "");
  }

  lemma ZoneRoundTrip(z: Zone)
    requires ZoneInRange(z)
    ensures ReadZone(ZoneText(z)) == Some(z)
  {
    if z.Offset? {
      Powers();
      OffsetSecondsRoundTrip(z.seconds, z.micros);
      var s2 := OffsetSeconds(z.seconds, z.micros);
      var s1 := ":" + (Padded(z.minutes, 10, 2) + s2);
      ReadPaddedField(':', z.minutes, 2, s2);
      ReadPadded(z.hours, 2, s1);
      assert ZoneText(z)[1..] == Padded(z.hours, 10, 2) + s1;
    }
  }

  lemma TimeRoundTrip(micro: nat, z: Zone)
    requires micro < 1000000 && ZoneInRange(z)
    ensures ReadFraction(Fraction(micro, ZoneText(z))) == Some((micro, ZoneText(z)))
    ensures ReadZone(ZoneText(z)) == Some(z)
  {
    ZoneRoundTrip(z);
    FractionRoundTrip(micro, ZoneText(z));
  }

  /** `datetime.fromisoformat` undoes `isoformat`, with any offset or none. */
  lemma IsoRoundTrip(t: Timestamp)
    ensures ParseIso(IsoFormat(t)) == Some(t)
  {
    Powers();
    var s6 := Fraction(t.micro, ZoneText(t.zone));
    var s5 := ":" + (Padded(t.second, 10, 2) + s6);
    var s4 := ":" + (Padded(t.minute, 10, 2) + s5);
    var s3 := "T" + (Padded(t.hour, 10, 2) + s4);
    var s2 := "-" + (Padded(t.day, 10, 2) + s3);
    var s1 := "-" + (Padded(t.month, 10, 2) + s2);
    assert IsoFormat(t) == Padded(t.year, 10, 4) + s1;
    ReadPadded(t.year, 4, s1);
    ReadPaddedField('-', t.month, 2, s2);
    ReadPaddedField('-', t.day, 2, s3);
    ReadPaddedField('T', t.hour, 2, s4);
    ReadPaddedField(':', t.minute, 2, s5);
    ReadPaddedField(':', t.second, 2, s6);
    TimeRoundTrip(t.micro, t.zone);
  }

  lemma {:induction false} DashesConcat(a: string, b: string)
    ensures WithoutDashes(a + b) == WithoutDashes(a) + WithoutDashes(b)
  {
    if a == "" {
      assert a + b == b;
    } else {
      assert (a + b)[1..] == a[1..] + b;
      DashesConcat(a[1..], b);
    }
  }

  lemma {:induction false} NoDashes(a: string)
    requires '-' !in a
    ensures WithoutDashes(a) == a
  {
    if a != "" {
      NoDashes(a[1..]);
    }
  }

  lemma DashAfter(a: string, b: string)
    requires '-' !in b
    ensures WithoutDashes(a + "-" + b) == WithoutDashes(a) + b
  {
    NoDashes(b);
    DashesConcat(a + "-", b);
    DropsDash(a);
  }

  lemma DropsDash(a: string)
    ensures WithoutDashes(a + "-") == WithoutDashes(a)
  {
    DashesConcat(a, "-");
    assert "-"[1..] == "" && WithoutDashes("-") == "";
  }

  lemma EightDigits(width: nat)
    ensures Power(16, width + 8) == 0x1_0000_0000 * Power(16, width)
  {
    assert Power(16, width + 2) == 16 * Power(16, width + 1) == 0x100 * Power(16, width);
    assert Power(16, width + 4) == 16 * Power(16, width + 3) == 0x100 * Power(16, width + 2);
    assert Power(16, width + 6) == 16 * Power(16, width + 5) == 0x100 * Power(16, width + 4);
    assert Power(16, width + 8) == 16 * Power(16, width + 7) == 0x100 * Power(16, width + 6);
  }

  lemma UuidLimitIsPower()
    ensures Power(16, 32) == UUID_LIMIT
  {
    EightDigits(0);
    EightDigits(8);
    EightDigits(16);
    EightDigits(24);
    assert Power(16, 0) == 1;
  }

  lemma DashesGone(h: string)
    requires |h| == 32 && '-' !in h
    ensures WithoutDashes(Grouped(h)) == h
  {
    NoDashes(h[..8]);
    DashAfter(h[..8], h[8..12]);
    DashAfter(h[..8] + "-" + h[8..12], h[12..16]);
    DashAfter(h[..8] + "-" + h[8..12] + "-" + h[12..16], h[16..20]);
    DashAfter(h[..8] + "-" + h[8..12] + "-" + h[12..16] + "-" + h[16..20], h[20..]);
    assert h == h[..8] + h[8..12] + h[12..16] + h[16..20] + h[20..];
  }

  /** `UUID(...)` undoes `str(uuid)`. */
  lemma UuidRoundTrip(n: Uuid)
    ensures ParseUuid(UuidText(n)) == Some(n)
  {
    UuidLimitIsPower();
    ParsePadded(n, 16, 32);
    DashesGone(Padded(n, 16, 32));
  }

  /** `decode_cursor` undoes `encode_cursor` for every timestamp and identifier. */
  lemma CursorRoundTrip(t: Timestamp, id: Uuid)
    ensures Decode(Encode(t, id)) == Some((t, id))
  {
    CursorIsAscii(t, id);
    var text := CursorText(t, id);
    Base64Url.DecodeEncode(Octets(text));
    assert FromOctets(Octets(text)) == text;
    assert text == IsoFormat(t) + ['|'] + UuidText(id);
    CutAtFirst(IsoFormat(t), '|', UuidText(id));
    IsoRoundTrip(t);
    UuidRoundTrip(id);
  }

  // ------------------------------------------- the texts

  /** The text of a cursor is that of the timestamp and that of the identifier, with a bar
      between them. */
  lemma CursorIsText(t: Timestamp, id: Uuid)
    ensures var decoded := Base64Url.Decode(Encode(t, id));
      decoded.Some? && FromOctets(decoded.value) == IsoFormat(t) + "|" + UuidText(id)
  {
    CursorIsAscii(t, id);
    Base64Url.DecodeEncode(Octets(CursorText(t, id)));
    assert FromOctets(Octets(CursorText(t, id))) == CursorText(t, id);
  }

  lemma DateShape(t: Timestamp)
    ensures var s := IsoFormat(t);
      && |s| >= 11 && s[..4] == Padded(t.year, 10, 4) && s[4] == '-'
      && s[5..7] == Padded(t.month, 10, 2) && s[7] == '-'
      && s[8..10] == Padded(t.day, 10, 2) && s[10] == 'T'
  {
  }

  /** A timestamp's text has the fields of the date in their places. */
  lemma DateParts(t: Timestamp)
    ensures |IsoFormat(t)| >= 11
    ensures ParseDigits(IsoFormat(t)[..4], 10) == t.year && IsoFormat(t)[4] == '-'
    ensures ParseDigits(IsoFormat(t)[5..7], 10) == t.month && IsoFormat(t)[7] == '-'
    ensures ParseDigits(IsoFormat(t)[8..10], 10) == t.day && IsoFormat(t)[10] == 'T'
  {
    Powers();
    DateShape(t);
    ParsePadded(t.year, 10, 4);
    ParsePadded(t.month, 10, 2);
    ParsePadded(t.day, 10, 2);
  }

  function ClockText(t: Timestamp): string {
    Padded(t.hour, 10, 2) + (":" + (Padded(t.minute, 10, 2) + (":" + (Padded(t.second, 10, 2)
    + Fraction(t.micro, ZoneText(t.zone))))))
  }

  lemma ClockFollowsDate(t: Timestamp)
    ensures |IsoFormat(t)| >= 11 && IsoFormat(t)[11..] == ClockText(t)
  {
  }

  lemma ClockShape(t: Timestamp)
    ensures var s := ClockText(t);
      && |s| >= 8 && s[..2] == Padded(t.hour, 10, 2) && s[2] == ':'
      && s[3..5] == Padded(t.minute, 10, 2) && s[5] == ':'
      && s[6..8] == Padded(t.second, 10, 2)
      && s[8..] == Fraction(t.micro, ZoneText(t.zone))
  {
  }

  /** After the date come the clock, the fraction if there is one, and the zone. */
  lemma ClockParts(t: Timestamp)
    ensures |IsoFormat(t)| >= 19
    ensures var s := IsoFormat(t)[11..];
      && ParseDigits(s[..2], 10) == t.hour && s[2] == ':'
      && ParseDigits(s[3..5], 10) == t.minute && s[5] == ':'
      && ParseDigits(s[6..8], 10) == t.second
      && (t.micro == 0 && t.zone == UTC ==> s[8..] == "+00:00")
      && (t.micro == 0 && t.zone == Naive ==> s[8..] == "")
      && (t.micro > 0 ==> |s| >= 15 && s[8] == '.' && ParseDigits(s[8..][1..7], 10) == t.micro)
  {
    Powers();
    ClockFollowsDate(t);
    ClockShape(t);
    ParsePadded(t.hour, 10, 2);
    ParsePadded(t.minute, 10, 2);
    ParsePadded(t.second, 10, 2);
    FractionParts(t.micro, ZoneText(t.zone));
    UtcText();
    assert ClockText(t)[8..] != "" ==> ClockText(t)[8] == ClockText(t)[8..][0];
  }

  lemma FractionParts(micro: nat, rest: string)
    requires micro < 1000000
    ensures micro == 0 ==> Fraction(micro, rest) == rest
    ensures micro > 0 ==> var s := Fraction(micro, rest);
      |s| >= 7 && s[0] == '.' && ParseDigits(s[1..7], 10) == micro
  {
    Powers();
    ParsePadded(micro, 10, 6);
    assert micro > 0 ==> Fraction(micro, rest)[1..7] == Padded(micro, 10, 6);
  }

  /** An offset of whole minutes is its sign, hours and minutes. */
  lemma OffsetReads(z: Zone)
    requires ZoneInRange(z) && z.Offset? && z.seconds == 0 && z.micros == 0
    ensures ZoneText(z) == [if z.behind then '-' else '+', "0123456789"[z.hours / 10], "0123456789"[z.hours % 10],
      ':', "0123456789"[z.minutes / 10], "0123456789"[z.minutes % 10]]
  {
    TwoDigits(z.hours);
    TwoDigits(z.minutes);
  }

  lemma UtcText()
    ensures ZoneText(UTC) == "+00:00"
  {
    TwoDigits(0);
    assert ZoneText(UTC) == ['+'] + ("00" + (":" + ("00" + "")));
  }

  /** An identifier's text has its digits in groups of eight, four, four, four and twelve. */
  lemma UuidShape(n: Uuid)
    ensures var s := UuidText(n);
      |s| == 36 && s[8] == '-' && s[13] == '-' && s[18] == '-' && s[23] == '-'
      && s[..8] + s[9..13] + s[14..18] + s[19..23] + s[24..] == Padded(n, 16, 32)
  {
    GroupShape(Padded(n, 16, 32));
  }

  lemma GroupShape(h: string)
    requires |h| == 32
    ensures var s := Grouped(h);
      |s| == 36 && s[8] == '-' && s[13] == '-' && s[18] == '-' && s[23] == '-'
      && s[..8] + s[9..13] + s[14..18] + s[19..23] + s[24..] == h
  {
    var s := Grouped(h);
    assert s[..8] == h[..8] && s[9..13] == h[8..12] && s[14..18] == h[12..16];
    assert s[19..23] == h[16..20] && s[24..] == h[20..];
  }

  // ------------------------------------------- instants order datetimes

  lemma {:induction false} MonthsAfter(y: nat, m: nat, m': nat)
    requires 1 <= m < m' <= 13
    ensures DaysBeforeMonth(y, m) + DaysInMonth(y, m) <= DaysBeforeMonth(y, m')
    decreases m'
  {
    if m + 1 < m' {
      MonthsAfter(y, m, m' - 1);
    }
  }

  lemma DaysInYear(y: nat)
    ensures DaysBeforeMonth(y, 13) == if LeapYear(y) then 366 else 365
  {
    assert DaysBeforeMonth(y, 4) == DaysBeforeMonth(y, 3) + 31 == DaysBeforeMonth(y, 2) + DaysInMonth(y, 2) + 31;
    assert DaysBeforeMonth(y, 2) == DaysBeforeMonth(y, 1) + 31 == 31;
    assert DaysBeforeMonth(y, 7) == DaysBeforeMonth(y, 6) + 30 == DaysBeforeMonth(y, 5) + 61 == DaysBeforeMonth(y, 4) + 91;
    assert DaysBeforeMonth(y, 10) == DaysBeforeMonth(y, 9) + 30 == DaysBeforeMonth(y, 8) + 61 == DaysBeforeMonth(y, 7) + 92;
    assert DaysBeforeMonth(y, 13) == DaysBeforeMonth(y, 12) + 31 == DaysBeforeMonth(y, 11) + 61 == DaysBeforeMonth(y, 10) + 92;
  }

  lemma FourthYear(y: nat)
    requires y >= 1
    ensures y / 4 == (y - 1) / 4 + if y % 4 == 0 then 1 else 0
  {
  }

  lemma HundredthYear(y: nat)
    requires y >= 1
    ensures y / 100 == (y - 1) / 100 + if y % 100 == 0 then 1 else 0
  {
  }

  lemma FourHundredthYear(y: nat)
    requires y >= 1
    ensures y / 400 == (y - 1) / 400 + if y % 400 == 0 then 1 else 0
  {
  }

  lemma Divides(y: nat, k: nat, d: nat, e: nat)
    requires (d == 100 && e == 4) || (d == 4 && e == 25)
    requires y == k * (d * e)
    ensures y % d == 0
  {
    assert d == 100 ==> y == 100 * (4 * k);
    assert d == 4 ==> y == 4 * (25 * k);
  }

  lemma CenturiesDivide(y: nat)
    ensures (y % 400 == 0 ==> y % 100 == 0) && (y % 100 == 0 ==> y % 4 == 0)
  {
    if y % 400 == 0 {
      Divides(y, y / 400, 100, 4);
    }
    if y % 100 == 0 {
      Divides(y, y / 100, 4, 25);
    }
  }

  lemma NextYear(y: nat)
    requires y >= 1
    ensures DaysBeforeYear(y + 1) == DaysBeforeYear(y) + if LeapYear(y) then 366 else 365
  {
    FourthYear(y);
    HundredthYear(y);
    FourHundredthYear(y);
    CenturiesDivide(y);
  }

  lemma {:induction false} YearsAfter(y: nat, y': nat)
    requires 1 <= y < y'
    ensures DaysBeforeYear(y) + DaysBeforeMonth(y, 13) <= DaysBeforeYear(y')
    decreases y'
  {
    DaysInYear(y);
    if y + 1 == y' {
      NextYear(y);
    } else {
      YearsAfter(y, y' - 1);
      NextYear(y' - 1);
    }
  }

  function DayNumber(t: Stamp): int
    requires t.year >= 1
  {
    DaysBeforeYear(t.year) + DaysBeforeMonth(t.year, t.month) + t.day - 1
  }

  predicate DateBefore(a: Stamp, b: Stamp) {
    a.year < b.year || (a.year == b.year && (a.month < b.month || (a.month == b.month && a.day < b.day)))
  }

  lemma DatesInOrder(a: Timestamp, b: Timestamp)
    requires DateBefore(a, b)
    ensures DayNumber(a) < DayNumber(b)
  {
    if a.year < b.year {
      MonthsAfter(a.year, a.month, 13);
      YearsAfter(a.year, b.year);
      if b.month > 1 {
        MonthsAfter(b.year, 1, b.month);
      }
    } else if a.month < b.month {
      MonthsAfter(a.year, a.month, b.month);
    }
  }

  predicate ClockBefore(a: Stamp, b: Stamp) {
    || a.hour < b.hour
    || (a.hour == b.hour && (a.minute < b.minute
        || (a.minute == b.minute && (a.second < b.second || (a.second == b.second && a.micro < b.micro)))))
  }

  /** Datetimes of one zone are ordered by their dates and then by their clocks, and a zone ahead
      of UTC is earlier by its offset. */
  lemma InstantsInOrder(a: Aware, b: Aware)
    requires a.zone == b.zone
    requires DateBefore(a, b)
      || (a.year == b.year && a.month == b.month && a.day == b.day && ClockBefore(a, b))
    ensures Instant(a) < Instant(b)
  {
    if DateBefore(a, b) {
      DatesInOrder(a, b);
    }
  }

  lemma OffsetsShift(a: Aware)
    ensures var z := a.zone;
      var micros := 3600000000 * z.hours + 60000000 * z.minutes + 1000000 * z.seconds + z.micros;
      Instant(a) == Instant(a.(zone := UTC)) + (if z.behind then micros else -micros)
  {
  }
}
