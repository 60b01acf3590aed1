/** The pagination cursor: a timestamp and a row id, printed, encoded, and parsed back. */
module Cursor {
  import opened Prelude
  import Utf8
  import Base64Url

  // ---------------------------------------------------------------- digits

  function DigitChar(d: nat): (c: char)
    requires d < 16
    ensures c != '|' && c != '-'
  {
    if d < 10 then '0' + d as char else 'a' + (d - 10) as char
  }

  function DigitValue(c: char): Option<nat> {
    if '0' <= c <= '9' then Some(c as int - '0' as int)
    else if 'a' <= c <= 'f' then Some(c as int - 'a' as int + 10)
    else if 'A' <= c <= 'F' then Some(c as int - 'A' as int + 10)
    else None
  }

  function Pow10(w: nat): (r: nat)
    ensures r > 0
  {
    if w == 0 then 1 else 10 * Pow10(w - 1)
  }

  /** The last `w` decimal digits of `n`, zero-padded. */
  function Decimal(n: nat, w: nat): (text: string)
    ensures |text| == w
    ensures forall i :: 0 <= i < |text| ==> '0' <= text[i] <= '9'
  {
    if w == 0 then "" else Decimal(n / 10, w - 1) + [DigitChar(n % 10)]
  }

  function ParseDecimal(text: string): Option<nat> {
    if text == "" then Some(0)
    else
      var last := text[|text| - 1];
      if !('0' <= last <= '9') then None
      else
        match ParseDecimal(text[..|text| - 1])
        case None => None
        case Some(n) => Some(n * 10 + (last as int - '0' as int))
  }

  lemma {:induction false} DecimalRoundTrip(n: nat, w: nat)
    requires n < Pow10(w)
    ensures ParseDecimal(Decimal(n, w)) == Some(n)
  {
    if w > 0 {
      DecimalRoundTrip(n / 10, w - 1);
      assert Decimal(n, w)[..w - 1] == Decimal(n / 10, w - 1);
    }
  }

  // ---------------------------------------------------------------- instants

  /** An instant, as the fields of its UTC reading. */
  datatype Instant = Instant(year: nat, month: nat, day: nat, hour: nat, minute: nat, second: nat, micro: nat)

  predicate LeapYear(year: nat) {
    year % 4 == 0 && (year % 100 != 0 || year % 400 == 0)
  }

  function DaysIn(year: nat, month: nat): nat {
    if month in {4, 6, 9, 11} then 30
    else if month == 2 then (if LeapYear(year) then 29 else 28)
    else 31
  }

  predicate Valid(t: Instant) {
    && 1 <= t.year <= 9999 && 1 <= t.month <= 12 && 1 <= t.day <= DaysIn(t.year, t.month)
    && t.hour < 24 && t.minute < 60 && t.second < 60 && t.micro < 1000000
  }

  function DateText(t: Instant): (text: string)
    ensures |text| == 10
  {
    Decimal(t.year, 4) + "-" + Decimal(t.month, 2) + "-" + Decimal(t.day, 2)
  }

  function ClockText(t: Instant): (text: string)
    ensures |text| == 8
  {
    Decimal(t.hour, 2) + ":" + Decimal(t.minute, 2) + ":" + Decimal(t.second, 2)
  }

  /** The microseconds appear only when they are not zero. */
  function MicroText(t: Instant): (text: string)
    ensures |text| == if t.micro == 0 then 0 else 7
  {
    if t.micro == 0 then "" else "." + Decimal(t.micro, 6)
  }

  /** `isoformat()` of a UTC datetime. */
  function IsoFormat(t: Instant): string {
    DateText(t) + "T" + ClockText(t) + MicroText(t) + "+00:00"
  }

  /** Three numbers set apart by a separator, at fixed places. */
  function ParseFields(text: string, first: nat, sep: char): Option<(nat, nat, nat)>
    requires |text| == first + 6
  {
    if text[first] != sep || text[first + 3] != sep then None
    else
      match (ParseDecimal(text[..first]), ParseDecimal(text[first + 1..first + 3]), ParseDecimal(text[first + 4..]))
      case (Some(a), Some(b), Some(c)) => Some((a, b, c))
      case _ => None
  }

  function ParseMicro(text: string): Option<nat> {
    if text == "" then Some(0)
    else if |text| == 7 && text[0] == '.' then ParseDecimal(text[1..])
    else None
  }

  /** `fromisoformat()` on the spellings `isoformat()` produces. */
  function FromIso(text: string): Option<Instant> {
    if |text| < 25 || text[10] != 'T' || text[|text| - 6..] != "+00:00" then None
    else
      match (ParseFields(text[..10], 4, '-'), ParseFields(text[11..19], 2, ':'), ParseMicro(text[19..|text| - 6]))
      case (Some((year, month, day)), Some((hour, minute, second)), Some(micro)) =>
        var t := Instant(year, month, day, hour, minute, second, micro);
        if Valid(t) then Some(t) else None
      case _ => None
  }

  lemma {:induction false} FieldsRoundTrip(a: nat, b: nat, c: nat, first: nat, sep: char)
    requires a < Pow10(first) && b < 100 && c < 100
    ensures ParseFields(Decimal(a, first) + [sep] + Decimal(b, 2) + [sep] + Decimal(c, 2), first, sep) == Some((a, b, c))
  {
    assert Pow10(1) == 10 && Pow10(2) == 100;
    var text := Decimal(a, first) + [sep] + Decimal(b, 2) + [sep] + Decimal(c, 2);
    assert text[..first] == Decimal(a, first);
    assert text[first + 1..first + 3] == Decimal(b, 2);
    assert text[first + 4..] == Decimal(c, 2);
    DecimalRoundTrip(a, first);
    DecimalRoundTrip(b, 2);
    DecimalRoundTrip(c, 2);
  }

  lemma {:induction false} MicroRoundTrip(t: Instant)
    requires t.micro < 1000000
    ensures ParseMicro(MicroText(t)) == Some(t.micro)
  {
    assert Pow10(1) == 10 && Pow10(2) == 100 && Pow10(3) == 1000 && Pow10(4) == 10000 && Pow10(5) == 100000;
    assert Pow10(6) == 1000000;
    if t.micro != 0 {
      DecimalRoundTrip(t.micro, 6);
      assert ("." + Decimal(t.micro, 6))[1..] == Decimal(t.micro, 6);
    }
  }

  lemma IsoPieces(date: string, clock: string, micro: string)
    requires |date| == 10 && |clock| == 8
    ensures
      var text := date + "T" + clock + micro + "+00:00";
      && |text| == 25 + |micro| && text[10] == 'T' && text[|text| - 6..] == "+00:00"
      && text[..10] == date && text[11..19] == clock && text[19..|text| - 6] == micro
  {
    var text := date + "T" + clock + micro + "+00:00";
    assert text == (date + "T" + clock + micro) + "+00:00";
    assert text[..10] == date;
    assert text[11..19] == clock;
    assert text[19..|text| - 6] == micro;
    assert text[|text| - 6..] == "+00:00";
  }

  lemma {:induction false} IsoRoundTrip(t: Instant)
    requires Valid(t)
    ensures FromIso(IsoFormat(t)) == Some(t)
  {
    assert Pow10(1) == 10 && Pow10(2) == 100 && Pow10(3) == 1000 && Pow10(4) == 10000;
    FieldsRoundTrip(t.year, t.month, t.day, 4, '-');
    FieldsRoundTrip(t.hour, t.minute, t.second, 2, ':');
    MicroRoundTrip(t);
    IsoPieces(DateText(t), ClockText(t), MicroText(t));
    hide Decimal, ParseDecimal, ParseFields, ParseMicro, Pow10;
    var text := IsoFormat(t);
    assert text == DateText(t) + "T" + ClockText(t) + MicroText(t) + "+00:00";
  }

  // ---------------------------------------------------------------- row ids

  function Pow16(w: nat): (r: nat)
    ensures r > 0
  {
    if w == 0 then 1 else 16 * Pow16(w - 1)
  }

  /** The last `w` hexadecimal digits of `n`. */
  function Hex(n: nat, w: nat): (text: string)
    ensures |text| == w
    ensures '|' !in text && '-' !in text
  {
    if w == 0 then "" else Hex(n / 16, w - 1) + [DigitChar(n % 16)]
  }

  function ParseHex(text: string): Option<nat> {
    if text == "" then Some(0)
    else
      match (ParseHex(text[..|text| - 1]), DigitValue(text[|text| - 1]))
      case (Some(n), Some(d)) => Some(n * 16 + d)
      case _ => None
  }

  lemma {:induction false} HexRoundTrip(n: nat, w: nat)
    requires n < Pow16(w)
    ensures ParseHex(Hex(n, w)) == Some(n)
  {
    if w > 0 {
      HexRoundTrip(n / 16, w - 1);
      assert Hex(n, w)[..w - 1] == Hex(n / 16, w - 1);
    }
  }

  /** A UUID, as the 128-bit number it is. */
  type Uuid = n: nat | n < 0x1_0000_0000_0000_0000_0000_0000_0000_0000

  /** `str(uuid)`: 32 hexadecimal digits in groups of 8, 4, 4, 4 and 12. */
  function PrintUuid(id: nat): (text: string)
    ensures |text| == 36
  {
    var hex := Hex(id, 32);
    hex[..8] + "-" + hex[8..12] + "-" + hex[12..16] + "-" + hex[16..20] + "-" + hex[20..]
  }

  function DropDashes(text: string): string {
    if text == "" then ""
    else if text[0] == '-' then DropDashes(text[1..])
    else [text[0]] + DropDashes(text[1..])
  }

  /** `uuid.UUID(text)`: dashes anywhere are ignored, and 32 hexadecimal digits must remain. */
  function ParseUuid(text: string): (id: Option<Uuid>)
  {
    var hex := DropDashes(text);
    if |hex| != 32 then None
    else
      match ParseHex(hex)
      case None => None
      case Some(n) => if n < 0x1_0000_0000_0000_0000_0000_0000_0000_0000 then Some(n) else None
  }

  lemma {:induction false} DropDashesAppend(a: string, b: string)
    ensures DropDashes(a + b) == DropDashes(a) + DropDashes(b)
  {
    if a == "" {
      assert a + b == b;
    } else {
      assert (a + b)[1..] == a[1..] + b;
      DropDashesAppend(a[1..], b);
    }
  }

  lemma {:induction false} NoDashes(text: string)
    requires '-' !in text
    ensures DropDashes(text) == text
  {
    if text != "" { NoDashes(text[1..]); }
  }

  /** Appending a dash and a dash-free group to a text appends just the group to what the reader sees. */
  lemma DashedGroup(text: string, group: string)
    requires '-' !in group
    ensures DropDashes(text + "-" + group) == DropDashes(text) + group
  {
    DropDashesAppend(text + "-", group);
    DropDashesAppend(text, "-");
    NoDashes(group);
    assert DropDashes("-") == "";
  }

  lemma {:induction false} UuidRoundTrip(id: Uuid)
    ensures ParseUuid(PrintUuid(id)) == Some(id)
    ensures '|' !in PrintUuid(id)
  {
    var hex := Hex(id, 32);
    var a, b, c, d, e := hex[..8], hex[8..12], hex[12..16], hex[16..20], hex[20..];
    NoDashes(a);
    DashedGroup(a, b);
    DashedGroup(a + "-" + b, c);
    DashedGroup(a + "-" + b + "-" + c, d);
    DashedGroup(a + "-" + b + "-" + c + "-" + d, e);
    assert a + b + c + d + e == hex;
    Pow16Values();
    HexRoundTrip(id, 32);
  }

  /** The printed form: dashes at their four places, lower-case hexadecimal digits at all others. */
  lemma UuidShape(id: nat, i: nat)
    requires i < 36
    ensures
      var c := PrintUuid(id)[i];
      if i == 8 || i == 13 || i == 18 || i == 23 then c == '-' else '0' <= c <= '9' || 'a' <= c <= 'f'
  {
    HexDigits(id, 32);
  }

  lemma {:induction false} HexDigits(n: nat, w: nat)
    ensures forall i :: 0 <= i < w ==> '0' <= Hex(n, w)[i] <= '9' || 'a' <= Hex(n, w)[i] <= 'f'
  {
    if w > 0 { HexDigits(n / 16, w - 1); }
  }

  lemma Pow16Values()
    ensures Pow16(32) == 0x1_0000_0000_0000_0000_0000_0000_0000_0000
  {
    assert Pow16(4) == 0x1_0000;
    assert Pow16(8) == 0x1_0000_0000;
    assert Pow16(12) == 0x1_0000_0000_0000;
    assert Pow16(16) == 0x1_0000_0000_0000_0000;
    assert Pow16(20) == 0x1_0000_0000_0000_0000_0000;
    assert Pow16(24) == 0x1_0000_0000_0000_0000_0000_0000;
    assert Pow16(28) == 0x1_0000_0000_0000_0000_0000_0000_0000;
  }

  // ---------------------------------------------------------------- the cursor

  datatype CursorError = InvalidCursor

  function EncodeCursor(t: Instant, rowId: string): string {
    Base64Url.Strip(Base64Url.Encode(Utf8.Encode(IsoFormat(t) + "|" + rowId)))
  }

  /** `rsplit("|", 1)` as a pair; `None` without a separator. */
  function SplitAtLastBar(text: string): Option<(string, string)> {
    if text == "" then None
    else
      var last := |text| - 1;
      if text[last] == '|' then Some((text[..last], ""))
      else
        match SplitAtLastBar(text[..last])
        case None => None
        case Some((left, right)) => Some((left, right + [text[last]]))
  }

  /** Every failure on the way is the one error. */
  function DecodeCursor(cursor: string): Result<(Instant, string), CursorError> {
    match Base64Url.Decode(Base64Url.Pad(cursor))
    case None => Err(InvalidCursor)
    case Some(bytes) =>
      match Utf8.Decode(bytes)
      case None => Err(InvalidCursor)
      case Some(text) =>
        match SplitAtLastBar(text)
        case None => Err(InvalidCursor)
        case Some((left, right)) =>
          match FromIso(left)
          case None => Err(InvalidCursor)
          case Some(t) => Ok((t, right))
  }

  lemma {:induction false} SplitsAtLastBar(left: string, right: string)
    requires '|' !in right
    ensures SplitAtLastBar(left + "|" + right) == Some((left, right))
  {
    var text := left + "|" + right;
    if right == "" {
      assert text[..|text| - 1] == left;
    } else {
      assert text[..|text| - 1] == left + "|" + right[..|right| - 1];
      SplitsAtLastBar(left, right[..|right| - 1]);
      assert right == right[..|right| - 1] + [right[|right| - 1]];
    }
  }

  lemma {:induction false} SplitRightHasNoBar(text: string)
    ensures SplitAtLastBar(text).Some? ==> '|' !in SplitAtLastBar(text).value.1
  {
    if text != "" { SplitRightHasNoBar(text[..|text| - 1]); }
  }

  /** What the cursor's text says is exactly what decoding it reads. */
  lemma CursorText(t: Instant, rowId: string)
    ensures Base64Url.Decode(Base64Url.Pad(EncodeCursor(t, rowId))) == Some(Utf8.Encode(IsoFormat(t) + "|" + rowId))
    ensures Utf8.Decode(Utf8.Encode(IsoFormat(t) + "|" + rowId)) == Some(IsoFormat(t) + "|" + rowId)
  {
    Base64Url.RoundTrip(Utf8.Encode(IsoFormat(t) + "|" + rowId));
    Utf8.RoundTrip(IsoFormat(t) + "|" + rowId);
  }

  /**
    * Decoding an encoded cursor gives back exactly the instant and the row id, for every instant and every
    * text as row id, if and only if the row id holds no bar.
    */
  lemma RoundTripIff(t: Instant, rowId: string)
    requires Valid(t)
    ensures DecodeCursor(EncodeCursor(t, rowId)) == Ok((t, rowId)) <==> '|' !in rowId
  {
    CursorText(t, rowId);
    if '|' !in rowId {
      SplitsAtLastBar(IsoFormat(t), rowId);
      IsoRoundTrip(t);
    } else {
      SplitRightHasNoBar(IsoFormat(t) + "|" + rowId);
    }
  }

  /** Distinct positions have distinct cursors. */
  lemma CursorsAreDistinct(t: Instant, id: Uuid, t': Instant, id': Uuid)
    requires Valid(t) && Valid(t')
    requires EncodeCursor(t, PrintUuid(id)) == EncodeCursor(t', PrintUuid(id'))
    ensures t == t' && id == id'
  {
    UuidRoundTrip(id);
    UuidRoundTrip(id');
    RoundTripIff(t, PrintUuid(id));
    RoundTripIff(t', PrintUuid(id'));
  }
}
