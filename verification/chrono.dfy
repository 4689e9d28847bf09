/** UTC date-times as the Rust side holds them (`chrono::DateTime<Utc>`), their order, and the
    two `format` patterns the backup code uses. */
module Chrono {
  import opened Text

  datatype DateTimeFields = DateTimeFields(year: int, month: int, day: int,
                                           hour: int, minute: int, second: int, nano: int)
  {
    /** Fields in range, with a year chrono writes with four digits. */
    predicate Valid() {
      0 <= year <= 9999 && 1 <= month <= 12 && 1 <= day <= 31
      && 0 <= hour < 24 && 0 <= minute < 60 && 0 <= second < 61 && 0 <= nano < 1000000000
    }
  }

  /** An instant in UTC. */
  type UtcDateTime = t: DateTimeFields | t.Valid() witness DateTimeFields(1970, 1, 1, 0, 0, 0, 0)

  /** `a` is not later than `b`: field-by-field comparison from the year down. */
  predicate NotAfter(a: UtcDateTime, b: UtcDateTime) {
    if a.year != b.year then a.year < b.year
    else if a.month != b.month then a.month < b.month
    else if a.day != b.day then a.day < b.day
    else if a.hour != b.hour then a.hour < b.hour
    else if a.minute != b.minute then a.minute < b.minute
    else if a.second != b.second then a.second < b.second
    else a.nano <= b.nano
  }

  lemma NotAfterIsTotalPreorder()
    ensures forall a, b :: NotAfter(a, b) || NotAfter(b, a)
    ensures forall a, b, c :: NotAfter(a, b) && NotAfter(b, c) ==> NotAfter(a, c)
  {
  }

  /** `n` written with at least `width` digits, padded with zeros. */
  function Padded(n: nat, width: nat): (r: String)
    ensures |r| >= width && AllChars(r, IsAsciiDigit)
    decreases width
  {
    var digits := NatToDecimal(n);
    if |digits| >= width then digits else "0" + Padded(n, width - 1)
  }

  /** `format("%Y-%m-%d %H:%M:%S UTC")`. */
  function HumanText(t: UtcDateTime): (r: String)
    ensures |r| > 0 && r[|r| - 1] == 'C'
  {
    Padded(t.year, 4) + "-" + Padded(t.month, 2) + "-" + Padded(t.day, 2) + " "
    + Padded(t.hour, 2) + ":" + Padded(t.minute, 2) + ":" + Padded(t.second, 2) + " UTC"
  }

  /** `format("%Y%m%d_%H%M%S")`. */
  function StampText(t: UtcDateTime): (r: String)
  {
    Padded(t.year, 4) + Padded(t.month, 2) + Padded(t.day, 2) + "_"
    + Padded(t.hour, 2) + Padded(t.minute, 2) + Padded(t.second, 2)
  }

  /** The stamp holds digits and one '_' only. */
  lemma StampAvoids(t: UtcDateTime, c: char)
    requires !IsAsciiDigit(c) && c != '_'
    ensures Avoids(StampText(t), c)
  {
    var y, mo, d := Padded(t.year, 4), Padded(t.month, 2), Padded(t.day, 2);
    var h, mi, s := Padded(t.hour, 2), Padded(t.minute, 2), Padded(t.second, 2);
    DigitsAvoid(y, c); DigitsAvoid(mo, c); DigitsAvoid(d, c);
    DigitsAvoid(h, c); DigitsAvoid(mi, c); DigitsAvoid(s, c);
    AvoidsConcat(y, mo, c);
    AvoidsConcat(y + mo, d, c);
    AvoidsConcat(y + mo + d, "_", c);
    AvoidsConcat(y + mo + d + "_", h, c);
    AvoidsConcat(y + mo + d + "_" + h, mi, c);
    AvoidsConcat(y + mo + d + "_" + h + mi, s, c);
  }

  /** The human-readable form holds digits, '-', ' ', ':' and "UTC" only. */
  lemma HumanAvoids(t: UtcDateTime, c: char)
    requires !IsAsciiDigit(c) && c !in "- :UTC"
    ensures Avoids(HumanText(t), c)
  {
    var y, mo, d := Padded(t.year, 4), Padded(t.month, 2), Padded(t.day, 2);
    var h, mi, s := Padded(t.hour, 2), Padded(t.minute, 2), Padded(t.second, 2);
    DigitsAvoid(y, c); DigitsAvoid(mo, c); DigitsAvoid(d, c);
    DigitsAvoid(h, c); DigitsAvoid(mi, c); DigitsAvoid(s, c);
    assert Avoids("-", c) && Avoids(" ", c) && Avoids(":", c) && Avoids(" UTC", c);
    AvoidsConcat(y, "-", c);
    AvoidsConcat(y + "-", mo, c);
    AvoidsConcat(y + "-" + mo, "-", c);
    AvoidsConcat(y + "-" + mo + "-", d, c);
    AvoidsConcat(y + "-" + mo + "-" + d, " ", c);
    AvoidsConcat(y + "-" + mo + "-" + d + " ", h, c);
    AvoidsConcat(y + "-" + mo + "-" + d + " " + h, ":", c);
    AvoidsConcat(y + "-" + mo + "-" + d + " " + h + ":", mi, c);
    AvoidsConcat(y + "-" + mo + "-" + d + " " + h + ":" + mi, ":", c);
    AvoidsConcat(y + "-" + mo + "-" + d + " " + h + ":" + mi + ":", s, c);
    AvoidsConcat(y + "-" + mo + "-" + d + " " + h + ":" + mi + ":" + s, " UTC", c);
  }

  /** Neither format writes a line break. */
  lemma FormatsHaveNoLineBreak(t: UtcDateTime)
    ensures forall i :: 0 <= i < |HumanText(t)| ==> HumanText(t)[i] != '\n'
    ensures forall i :: 0 <= i < |StampText(t)| ==> StampText(t)[i] != '\n'
  {
    HumanAvoids(t, '\n');
    StampAvoids(t, '\n');
  }
}
