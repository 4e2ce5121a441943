/** The date formatting of updateUserSubscription: a Date is rendered with
    Date.prototype.toISOString (the Date Time String Format of ECMA-262,
    section 21.4.1.32 of the 2024 edition, with its six-digit expanded years
    for years outside 0..9999), cut to its first 19 characters, and its first
    'T' replaced by a space, giving MySQL's `YYYY-MM-DD HH:MM:SS`. */
module IsoDate {
  import opened JsValues

  /** The UTC fields of a Date, as toISOString reads them. */
  datatype DateTime = DateTime(year: int, month: int, day: int,
                               hour: int, minute: int, second: int, millisecond: int)

  /** A JavaScript time value spans years -271821 to 275760. */
  const MinYear := -271821
  const MaxYear := 275760

  predicate InRange(d: DateTime)
  {
    && MinYear <= d.year <= MaxYear
    && 1 <= d.month <= 12 && 1 <= d.day <= 31
    && 0 <= d.hour < 24 && 0 <= d.minute < 60 && 0 <= d.second < 60
    && 0 <= d.millisecond < 1000
  }

  type Fields = d: DateTime | InRange(d) witness DateTime(1970, 1, 1, 0, 0, 0, 0)

  /** A Date object: a valid instant, or "Invalid Date" (time value NaN). */
  datatype Date = ValidDate(fields: Fields) | InvalidDate

  function Pow10(w: nat): (p: nat)
    ensures p >= 1
  {
    if w == 0 then 1 else 10 * Pow10(w - 1)
  }

  /** The last `width` decimal digits of n, zero-padded on the left. */
  function Pad(n: nat, width: nat): (s: string)
    ensures |s| == width
    ensures AllDigits(s)
  {
    if width == 0 then [] else Pad(n / 10, width - 1) + [DigitChar(n % 10)]
  }

  predicate AllDigits(s: string)
  {
    forall i :: 0 <= i < |s| ==> '0' <= s[i] <= '9'
  }

  /** The number a string of decimal digits denotes. */
  function DigitsValue(s: string): nat
    requires AllDigits(s)
  {
    if s == [] then 0 else 10 * DigitsValue(s[..|s| - 1]) + (s[|s| - 1] as int - '0' as int)
  }

  /** Reading back a padded numeral gives the number, when it fits the width. */
  lemma {:induction false} PadValue(n: nat, width: nat)
    requires n < Pow10(width)
    ensures DigitsValue(Pad(n, width)) == n
  {
    if width > 0 {
      var s := Pad(n, width);
      assert s[..|s| - 1] == Pad(n / 10, width - 1);
      PadValue(n / 10, width - 1);
    }
  }

  /** Padding the number a digit string denotes gives the string back. */
  lemma {:induction false} ValuePad(s: string)
    requires AllDigits(s)
    ensures DigitsValue(s) < Pow10(|s|)
    ensures Pad(DigitsValue(s), |s|) == s
  {
    if s != [] {
      var init := s[..|s| - 1];
      assert AllDigits(init);
      ValuePad(init);
      var d := s[|s| - 1] as int - '0' as int;
      var v := DigitsValue(s);
      assert v == 10 * DigitsValue(init) + d && 0 <= d < 10;
      assert v / 10 == DigitsValue(init) && v % 10 == d;
      assert DigitChar(d) == s[|s| - 1];
      assert s == init + [s[|s| - 1]];
    }
  }

  /** The year part of the Date Time String Format: four digits for years
      0..9999, otherwise a sign and six digits (an expanded year). */
  function YearString(y: int): (s: string)
    ensures 0 <= y <= 9999 ==> |s| == 4 && AllDigits(s)
    ensures !(0 <= y <= 9999) ==> |s| == 7 && s[0] == (if y < 0 then '-' else '+') && AllDigits(s[1..])
  {
    if 0 <= y <= 9999 then Pad(y, 4)
    else
      var digits := Pad(if y < 0 then -y else y, 6);
      assert (if y < 0 then "-" else "+") + digits == [if y < 0 then '-' else '+'] + digits;
      (if y < 0 then "-" else "+") + digits
  }

  /** Date.prototype.toISOString on a valid Date: `YYYY-MM-DDTHH:mm:ss.sssZ`. */
  function ToIsoString(d: Fields): (s: string)
    ensures |s| == |YearString(d.year)| + 20
    // the first 'T' is the date/time separator after `YYYY-MM-DD`
    ensures s[|YearString(d.year)| + 6] == 'T' && 'T' !in s[..|YearString(d.year)| + 6]
    ensures s[|s| - 1] == 'Z'
  {
    YearString(d.year) + "-" + Pad(d.month, 2) + "-" + Pad(d.day, 2)
      + "T" + Pad(d.hour, 2) + ":" + Pad(d.minute, 2) + ":" + Pad(d.second, 2)
      + "." + Pad(d.millisecond, 3) + "Z"
  }

  /** String.prototype.replace with a one-character pattern: only the first
      occurrence is replaced. */
  function ReplaceFirst(s: string, from: char, to: char): (r: string)
    ensures |r| == |s|
    ensures from !in s ==> r == s
  {
    if s == [] then []
    else if s[0] == from then [to] + s[1..]
    else [s[0]] + ReplaceFirst(s[1..], from, to)
  }

  /** replace changes no character other than an occurrence of `from`, and
      that one only into `to`. */
  lemma {:induction false} ReplaceFirstChangesOnlyFrom(s: string, from: char, to: char, i: nat)
    requires i < |s|
    ensures ReplaceFirst(s, from, to)[i] != s[i] ==> s[i] == from && ReplaceFirst(s, from, to)[i] == to
  {
    if s[0] != from && i > 0 {
      ReplaceFirstChangesOnlyFrom(s[1..], from, to, i - 1);
    }
  }

  /** Where `from` first occurs at k, exactly that character is replaced. */
  lemma {:induction false} ReplaceFirstAt(s: string, from: char, to: char, k: nat)
    requires k < |s| && s[k] == from
    requires from !in s[..k]
    ensures ReplaceFirst(s, from, to) == s[..k] + [to] + s[k + 1..]
  {
    if k > 0 {
      assert s[0] == s[..k][0];
      assert s[1..][..k - 1] == s[..k][1..];
      ReplaceFirstAt(s[1..], from, to, k - 1);
      assert s[1..][..k - 1] == s[1..k];
      assert s[1..][k..] == s[k + 1..];
      assert s[..k] == [s[0]] + s[1..k];
    }
  }

  /** The formatting of user.model.js: `toISOString().slice(0, 19).replace('T', ' ')`. */
  function SqlDateTime(d: Fields): (r: string)
    ensures |r| == 19
    // the first 19 characters of the ISO text, with its separator made a space
    ensures r == ToIsoString(d)[..19][|YearString(d.year)| + 6 := ' ']
  {
    SeparatorReplaced(ToIsoString(d), |YearString(d.year)| + 6);
    MySqlForm(ToIsoString(d))
  }

  /** When the first 'T' of an ISO text sits at k < 19, the MySQL form is the
      19-character prefix with position k made a space. */
  lemma SeparatorReplaced(iso: string, k: nat)
    requires |iso| >= 19 && k < 19
    requires iso[k] == 'T' && 'T' !in iso[..k]
    ensures MySqlForm(iso) == iso[..19][k := ' ']
  {
    var prefix := iso[..19];
    assert prefix[..k] == iso[..k];
    ReplaceFirstAt(prefix, 'T', ' ', k);
    assert prefix[..k] + [' '] + prefix[k + 1..] == prefix[k := ' '];
  }

  /** `iso.slice(0, 19).replace('T', ' ')` on an ISO string. */
  function MySqlForm(iso: string): (r: string)
    requires |iso| >= 19
    ensures |r| == 19
    ensures 'T' !in iso[..19] ==> r == iso[..19]
  {
    ReplaceFirst(iso[..19], 'T', ' ')
  }

  /** The MySQL DATETIME literal `YYYY-MM-DD HH:MM:SS` of the given fields. */
  function DateTimeLiteral(d: Fields): string
    requires 0 <= d.year
  {
    Pad(d.year, 4) + "-" + Pad(d.month, 2) + "-" + Pad(d.day, 2)
      + " " + Pad(d.hour, 2) + ":" + Pad(d.minute, 2) + ":" + Pad(d.second, 2)
  }

  lemma DigitsAreNotT(s: string)
    requires AllDigits(s)
    ensures 'T' !in s
  {
  }

  /** Cutting `head T tail rest` after the tail and replacing the first 'T'
      leaves `head tail` with a space between, when the head holds no 'T'. */
  lemma SliceAndReplace(head: string, tail: string, rest: string)
    requires 'T' !in head
    requires |head| + 1 + |tail| == 19
    ensures MySqlForm(head + "T" + tail + rest) == head + " " + tail
  {
    var t := head + "T" + tail;
    assert (t + rest)[..|t|] == t;
    assert t[..|head|] == head;
    ReplaceFirstAt(t, 'T', ' ', |head|);
    assert t[|head| + 1..] == tail;
  }

  /** For a four-digit year the formatting yields `YYYY-MM-DD HH:MM:SS`:
      the first 19 ISO characters with the single 'T' turned into a space. */
  lemma FormatsFourDigitYear(d: Fields)
    requires 0 <= d.year <= 9999
    ensures SqlDateTime(d) == DateTimeLiteral(d)
  {
    var head := Pad(d.year, 4) + "-" + Pad(d.month, 2) + "-" + Pad(d.day, 2);
    var tail := Pad(d.hour, 2) + ":" + Pad(d.minute, 2) + ":" + Pad(d.second, 2);
    var rest := "." + Pad(d.millisecond, 3) + "Z";
    FourDigitIsoParts(d);
    DateHasNoT(Pad(d.year, 4), Pad(d.month, 2), Pad(d.day, 2));
    SliceAndReplace(head, tail, rest);
    LiteralParts(d);
  }

  /** The literal, split at its space. */
  lemma LiteralParts(d: Fields)
    requires 0 <= d.year
    ensures DateTimeLiteral(d) == (Pad(d.year, 4) + "-" + Pad(d.month, 2) + "-" + Pad(d.day, 2)) + " "
                                  + (Pad(d.hour, 2) + ":" + Pad(d.minute, 2) + ":" + Pad(d.second, 2))
  {
  }

  /** A `year-month-day` of digit fields holds no 'T'. */
  lemma DateHasNoT(year: string, month: string, day: string)
    requires AllDigits(year) && AllDigits(month) && AllDigits(day)
    ensures 'T' !in year + "-" + month + "-" + day
  {
    DigitsAreNotT(year);
    DigitsAreNotT(month);
    DigitsAreNotT(day);
  }

  /** The ISO text of a four-digit year, split at its separator. */
  lemma FourDigitIsoParts(d: Fields)
    requires 0 <= d.year <= 9999
    ensures ToIsoString(d) == (Pad(d.year, 4) + "-" + Pad(d.month, 2) + "-" + Pad(d.day, 2)) + "T"
                              + (Pad(d.hour, 2) + ":" + Pad(d.minute, 2) + ":" + Pad(d.second, 2))
                              + ("." + Pad(d.millisecond, 3) + "Z")
  {
    assert YearString(d.year) == Pad(d.year, 4);
  }

  /** For an expanded year the slice stops after the minutes, so the result
      is `±YYYYYY-MM-DD HH:MM`: the seconds are cut off. */
  lemma FormatsExpandedYear(d: Fields)
    requires !(0 <= d.year <= 9999)
    ensures SqlDateTime(d) == YearString(d.year) + "-" + Pad(d.month, 2) + "-" + Pad(d.day, 2)
                                + " " + Pad(d.hour, 2) + ":" + Pad(d.minute, 2)
  {
    var year := YearString(d.year);
    var head := year + "-" + Pad(d.month, 2) + "-" + Pad(d.day, 2);
    var tail := Pad(d.hour, 2) + ":" + Pad(d.minute, 2);
    var rest := ":" + Pad(d.second, 2) + "." + Pad(d.millisecond, 3) + "Z";
    assert ToIsoString(d) == head + "T" + tail + rest;
    assert year == year[..1] + year[1..];
    DigitsAreNotT(year[1..]);
    DigitsAreNotT(Pad(d.month, 2));
    DigitsAreNotT(Pad(d.day, 2));
    SliceAndReplace(head, tail, rest);
  }

  /** Reads a MySQL `YYYY-MM-DD HH:MM:SS` literal back into date fields
      (with a zero millisecond); None when the text has another shape. */
  function ParseDateTime(s: string): (r: Option<DateTime>)
    ensures r.Some? ==> |s| == 19
  {
    if |s| == 19 && s[4] == '-' && s[7] == '-' && s[10] == ' ' && s[13] == ':' && s[16] == ':'
       && AllDigits(s[..4]) && AllDigits(s[5..7]) && AllDigits(s[8..10])
       && AllDigits(s[11..13]) && AllDigits(s[14..16]) && AllDigits(s[17..])
    then Some(DateTime(DigitsValue(s[..4]), DigitsValue(s[5..7]), DigitsValue(s[8..10]),
                       DigitsValue(s[11..13]), DigitsValue(s[14..16]), DigitsValue(s[17..]), 0))
    else None
  }

  /** The stored text denotes the same instant as the Date, to the second. */
  lemma FormatThenParse(d: Fields)
    requires 0 <= d.year <= 9999
    ensures ParseDateTime(SqlDateTime(d)) == Some(d.(millisecond := 0))
  {
    FormatsFourDigitYear(d);
    var s := SqlDateTime(d);
    assert s[..4] == Pad(d.year, 4);
    assert s[5..7] == Pad(d.month, 2);
    assert s[8..10] == Pad(d.day, 2);
    assert s[11..13] == Pad(d.hour, 2);
    assert s[14..16] == Pad(d.minute, 2);
    assert s[17..] == Pad(d.second, 2);
    PadValue(d.year, 4);
    PadValue(d.month, 2);
    PadValue(d.day, 2);
    PadValue(d.hour, 2);
    PadValue(d.minute, 2);
    PadValue(d.second, 2);
  }

  /** Conversely, every well-formed literal whose fields name a Date with a
      four-digit year is exactly what the formatting produces for it. */
  lemma ParseThenFormat(s: string, d: Fields)
    requires ParseDateTime(s) == Some(d)
    ensures SqlDateTime(d) == s
  {
    ParsedParts(s, d);
    ValuePad(s[..4]);
    assert Pow10(4) == 10000;
    FormatsFourDigitYear(d);
    ValuePad(s[5..7]);
    ValuePad(s[8..10]);
    ValuePad(s[11..13]);
    ValuePad(s[14..16]);
    ValuePad(s[17..]);
  }

  /** What a successful parse says about the text and the fields. */
  lemma ParsedParts(s: string, d: Fields)
    requires ParseDateTime(s) == Some(d)
    ensures |s| == 19
    ensures s == s[..4] + "-" + s[5..7] + "-" + s[8..10] + " " + s[11..13] + ":" + s[14..16] + ":" + s[17..]
    ensures AllDigits(s[..4]) && AllDigits(s[5..7]) && AllDigits(s[8..10])
    ensures AllDigits(s[11..13]) && AllDigits(s[14..16]) && AllDigits(s[17..])
    ensures d.year == DigitsValue(s[..4]) && d.month == DigitsValue(s[5..7]) && d.day == DigitsValue(s[8..10])
    ensures d.hour == DigitsValue(s[11..13]) && d.minute == DigitsValue(s[14..16]) && d.second == DigitsValue(s[17..])
  {
  }
}
