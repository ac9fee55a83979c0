/**
 * `Date.prototype.toISOString` over the broken-down UTC fields of a date:
 * `YYYY-MM-DDTHH:mm:ss.sssZ`, with the six-digit signed year form
 * (`+YYYYYY` / `-YYYYYY`) for years outside 0000..9999.
 */
module IsoTime {
  import opened Wrappers

  /** The years a JavaScript Date can hold (plus or minus 8.64e15 ms around 1970). */
  const MinYear := -271821
  const MaxYear := 275760

  datatype Timestamp = Timestamp(year: int, month: nat, day: nat, hour: nat, minute: nat,
                                 second: nat, millisecond: nat)

  predicate ValidTimestamp(t: Timestamp)
  {
    MinYear <= t.year <= MaxYear && 1 <= t.month <= 12 && 1 <= t.day <= 31 &&
    t.hour < 24 && t.minute < 60 && t.second < 60 && t.millisecond < 1000
  }

  function Pow10(n: nat): (p: nat)
    ensures p >= 1
  {
    if n == 0 then 1 else 10 * Pow10(n - 1)
  }

  predicate IsDigit(c: char) { '0' <= c <= '9' }

  predicate AllDigits(s: string) { forall i :: 0 <= i < |s| ==> IsDigit(s[i]) }

  /** `n` in decimal, zero-padded on the left to exactly `width` digits. */
  function Digits(n: nat, width: nat): (s: string)
    requires n < Pow10(width)
    ensures |s| == width && AllDigits(s)
  {
    if width == 0 then []
    else Digits(n / 10, width - 1) + [('0' as int + n % 10) as char]
  }

  /** The number a string of decimal digits denotes. */
  function DigitsValue(s: string): nat
  {
    if s == [] then 0
    else 10 * DigitsValue(s[..|s| - 1]) + (if IsDigit(s[|s| - 1]) then s[|s| - 1] as int - '0' as int else 0)
  }

  /** Reading back a zero-padded number gives the number. */
  lemma {:induction false} DigitsValueOfDigits(n: nat, width: nat)
    requires n < Pow10(width)
    ensures DigitsValue(Digits(n, width)) == n
  {
    if width > 0 {
      var s := Digits(n, width);
      assert s[..|s| - 1] == Digits(n / 10, width - 1);
      DigitsValueOfDigits(n / 10, width - 1);
    }
  }

  /** The year part: four digits in 0..9999, otherwise a sign and six digits. */
  function YearText(y: int): (s: string)
    requires MinYear <= y <= MaxYear
    ensures 0 <= y <= 9999 ==> |s| == 4 && AllDigits(s)
    ensures !(0 <= y <= 9999) ==> |s| == 7 && s[0] == (if y < 0 then '-' else '+') && AllDigits(s[1..])
  {
    if 0 <= y <= 9999 then Digits(y, 4)
    else if y < 0 then "-" + Digits(-y, 6)
    else "+" + Digits(y, 6)
  }

  /** Everything after the year: `-MM-DDTHH:mm:ss.sssZ`. */
  function TimeText(t: Timestamp): (s: string)
    requires ValidTimestamp(t)
    ensures |s| == 20
  {
    "-" + Digits(t.month, 2) + "-" + Digits(t.day, 2) + "T" + Digits(t.hour, 2) + ":" +
    Digits(t.minute, 2) + ":" + Digits(t.second, 2) + "." + Digits(t.millisecond, 3) + "Z"
  }

  /** `toISOString()`: 24 characters, or 27 with an extended year. */
  function IsoString(t: Timestamp): (s: string)
    requires ValidTimestamp(t)
    ensures |s| == (if 0 <= t.year <= 9999 then 24 else 27)
    ensures s[|s| - 1] == 'Z'
  {
    YearText(t.year) + TimeText(t)
  }

  /** A field of digits read back, or None if it holds a non-digit. */
  function Field(s: string): Option<nat>
  {
    if AllDigits(s) then Some(DigitsValue(s)) else None
  }

  /** Reads `-MM-DDTHH:mm:ss.sssZ` back into the fields after the year. */
  function ParseTimeText(year: int, s: string): Option<Timestamp>
    requires |s| == 20
  {
    if s[0] != '-' || s[3] != '-' || s[6] != 'T' || s[9] != ':' || s[12] != ':' || s[15] != '.' || s[19] != 'Z'
    then None
    else match (Field(s[1..3]), Field(s[4..6]), Field(s[7..9]), Field(s[10..12]), Field(s[13..15]), Field(s[16..19]))
      case (Some(mo), Some(d), Some(h), Some(mi), Some(se), Some(ms)) =>
        var t := Timestamp(year, mo, d, h, mi, se, ms);
        if ValidTimestamp(t) then Some(t) else None
      case _ => None
  }

  /** The inverse of IsoString: None for text that is not in its format. */
  function ParseIso(s: string): (r: Option<Timestamp>)
    ensures r.Some? ==> ValidTimestamp(r.value)
  {
    if |s| == 24 && AllDigits(s[..4]) then ParseTimeText(DigitsValue(s[..4]), s[4..])
    else if |s| == 27 && (s[0] == '+' || s[0] == '-') && AllDigits(s[1..7]) then
      var magnitude: int := DigitsValue(s[1..7]);
      ParseTimeText(if s[0] == '-' then -magnitude else magnitude, s[7..])
    else None
  }

  lemma ParseTimeTextOfTimeText(t: Timestamp)
    requires ValidTimestamp(t)
    ensures ParseTimeText(t.year, TimeText(t)) == Some(t)
  {
    var s := TimeText(t);
    assert s[1..3] == Digits(t.month, 2);
    assert s[4..6] == Digits(t.day, 2);
    assert s[7..9] == Digits(t.hour, 2);
    assert s[10..12] == Digits(t.minute, 2);
    assert s[13..15] == Digits(t.second, 2);
    assert s[16..19] == Digits(t.millisecond, 3);
    DigitsValueOfDigits(t.month, 2);
    DigitsValueOfDigits(t.day, 2);
    DigitsValueOfDigits(t.hour, 2);
    DigitsValueOfDigits(t.minute, 2);
    DigitsValueOfDigits(t.second, 2);
    DigitsValueOfDigits(t.millisecond, 3);
  }

  /** toISOString loses nothing: the text reads back as the same date. */
  lemma ParseIsoOfIsoString(t: Timestamp)
    requires ValidTimestamp(t)
    ensures ParseIso(IsoString(t)) == Some(t)
  {
    var s := IsoString(t);
    assert s == YearText(t.year) + TimeText(t);
    assert |YearText(t.year)| == (if 0 <= t.year <= 9999 then 4 else 7);
    ParseTimeTextOfTimeText(t);
    if 0 <= t.year <= 9999 {
      assert s[..4] == Digits(t.year, 4);
      assert s[4..] == TimeText(t);
      DigitsValueOfDigits(t.year, 4);
    } else {
      var m := if t.year < 0 then -t.year else t.year;
      assert s[1..7] == Digits(m, 6);
      assert s[7..] == TimeText(t);
      DigitsValueOfDigits(m, 6);
    }
  }

  /** Distinct dates give distinct ISO strings. */
  lemma IsoStringInjective(t1: Timestamp, t2: Timestamp)
    requires ValidTimestamp(t1) && ValidTimestamp(t2)
    requires IsoString(t1) == IsoString(t2)
    ensures t1 == t2
  {
    ParseIsoOfIsoString(t1);
    ParseIsoOfIsoString(t2);
  }
}
