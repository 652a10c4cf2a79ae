/** The two SigV4 timestamps both edge functions render from one `new Date()`:
    `dateStamp` (YYYYMMDD) and `amzDate` (YYYYMMDDThhmmssZ), plus the parser
    that reads an `amzDate` back. */
module UtcDate {
  import opened Wrappers
  import opened Decimal

  /** The UTC calendar fields of one instant, as the `getUTC*` accessors give
      them (`month` is already `getUTCMonth() + 1`). */
  datatype UtcInstant = UtcInstant(year: nat, month: nat, day: nat, hour: nat, minute: nat, second: nat)
  {
    predicate Valid() {
      1 <= month <= 12 && 1 <= day <= 31 && hour < 24 && minute < 60 && second < 60
    }

    /** A four-digit year, as for every instant of the years 1000 to 9999. */
    predicate FourDigitYear() {
      1000 <= year <= 9999
    }
  }

  /** `dateStamp`: the unpadded year followed by the two-digit month and day. */
  function DateStamp(t: UtcInstant): (r: string)
    ensures AllDigits(r)
    ensures t.Valid() ==> |r| == |NatToString(t.year)| + 4
    ensures t.Valid() && t.FourDigitYear() ==> |r| == 8
  {
    var y, m, d := NatToString(t.year), Pad2(t.month), Pad2(t.day);
    NatToStringFourDigits(t.year);
    AllDigitsConcat(y, m);
    AllDigitsConcat(y + m, d);
    y + m + d
  }

  lemma AllDigitsConcat(a: string, b: string)
    requires AllDigits(a) && AllDigits(b)
    ensures AllDigits(a + b)
  {
    assert forall i :: |a| <= i < |a + b| ==> (a + b)[i] == b[i - |a|];
  }

  /** `amzDate`: the date stamp, `T`, two-digit hours, minutes and seconds, `Z`. */
  function AmzDate(t: UtcInstant): (r: string)
    ensures forall i :: 0 <= i < |r| ==> IsDigit(r[i]) || r[i] == 'T' || r[i] == 'Z'
    ensures var ds := DateStamp(t);
      |ds| < |r| && r[..|ds|] == ds && r[|ds|] == 'T' && r[|r| - 1] == 'Z'
    ensures t.Valid() ==> |r| == |DateStamp(t)| + 8
  {
    var ds := DateStamp(t);
    var tm := Pad2(t.hour) + Pad2(t.minute) + Pad2(t.second);
    AllDigitsConcat(Pad2(t.hour), Pad2(t.minute));
    AllDigitsConcat(Pad2(t.hour) + Pad2(t.minute), Pad2(t.second));
    StampShape(ds, tm);
    ds + "T" + tm + "Z"
  }

  lemma StampShape(ds: string, tm: string)
    requires AllDigits(ds) && AllDigits(tm)
    ensures var r := ds + "T" + tm + "Z";
      && r[..|ds|] == ds
      && forall i :: 0 <= i < |r| ==> IsDigit(r[i]) || r[i] == 'T' || r[i] == 'Z'
  {
    var r := ds + "T" + tm + "Z";
    assert r[..|ds|] == ds;
    forall i | 0 <= i < |r|
      ensures IsDigit(r[i]) || r[i] == 'T' || r[i] == 'Z'
    {
      if i < |ds| {
        assert r[i] == ds[i];
      } else if |ds| < i < |r| - 1 {
        assert r[i] == tm[i - |ds| - 1];
      }
    }
  }

  /** The fifteen digit positions of a `YYYYMMDDThhmmssZ` string. */
  predicate AmzDateShape(s: string) {
    && |s| == 16 && s[8] == 'T' && s[15] == 'Z'
    && forall i :: 0 <= i < 15 && i != 8 ==> IsDigit(s[i])
  }

  /** Reads a sixteen-character `YYYYMMDDThhmmssZ` back into its fields. */
  function ParseAmzDate(s: string): Option<UtcInstant>
  {
    if AmzDateShape(s) then
      Some(UtcInstant(DigitsValue(s[0..4]), DigitsValue(s[4..6]), DigitsValue(s[6..8]),
                      DigitsValue(s[9..11]), DigitsValue(s[11..13]), DigitsValue(s[13..15])))
    else None
  }

  /** For a valid instant with a four-digit year, the `amzDate` rendering
      determines the instant: parsing it gives every field back. */
  lemma AmzDateRoundTrip(t: UtcInstant)
    requires t.Valid() && t.FourDigitYear()
    ensures ParseAmzDate(AmzDate(t)) == Some(t)
  {
    var y := NatToString(t.year);
    NatToStringFourDigits(t.year);
    NatToStringRoundTrip(t.year);
    var mo, d := Pad2(t.month), Pad2(t.day);
    var h, mi, se := Pad2(t.hour), Pad2(t.minute), Pad2(t.second);
    assert AmzDate(t) == (y + mo + d) + "T" + (h + mi + se) + "Z";
    ParseFields(y, mo, d, h, mi, se);
  }

  /** Parsing six digit fields of the right widths, laid out as a timestamp,
      reads each field's value. */
  lemma ParseFields(y: string, mo: string, d: string, h: string, mi: string, se: string)
    requires |y| == 4 && |mo| == 2 && |d| == 2 && |h| == 2 && |mi| == 2 && |se| == 2
    requires AllDigits(y) && AllDigits(mo) && AllDigits(d) && AllDigits(h) && AllDigits(mi) && AllDigits(se)
    ensures ParseAmzDate((y + mo + d) + "T" + (h + mi + se) + "Z")
         == Some(UtcInstant(DigitsValue(y), DigitsValue(mo), DigitsValue(d),
                            DigitsValue(h), DigitsValue(mi), DigitsValue(se)))
  {
    var ds := y + mo + d;
    var tm := h + mi + se;
    AllDigitsConcat(y, mo);
    AllDigitsConcat(y + mo, d);
    AllDigitsConcat(h, mi);
    AllDigitsConcat(h + mi, se);
    var s := ds + "T" + tm + "Z";
    AmzDateShapeOf(ds, tm);
    ThreeParts(y, mo, d);
    ThreeParts(h, mi, se);
    StampParts(ds, tm);
    assert s[0..4] == y && s[4..6] == mo && s[6..8] == d;
    assert s[9..11] == h && s[11..13] == mi && s[13..15] == se;
  }

  lemma ThreeParts(a: string, b: string, c: string)
    ensures var s := a + b + c;
      s[0..|a|] == a && s[|a|..|a| + |b|] == b && s[|a| + |b|..|s|] == c
  {
  }

  lemma StampParts(ds: string, tm: string)
    requires |ds| == 8 && |tm| == 6
    ensures var s := ds + "T" + tm + "Z";
      |s| == 16
      && s[0..4] == ds[0..4] && s[4..6] == ds[4..6] && s[6..8] == ds[6..8]
      && s[9..11] == tm[0..2] && s[11..13] == tm[2..4] && s[13..15] == tm[4..6]
  {
  }

  lemma AmzDateShapeOf(ds: string, tm: string)
    requires |ds| == 8 && |tm| == 6 && AllDigits(ds) && AllDigits(tm)
    ensures AmzDateShape(ds + "T" + tm + "Z")
  {
    var s := ds + "T" + tm + "Z";
    forall i | 0 <= i < 15 && i != 8
      ensures IsDigit(s[i])
    {
      if i < 8 {
        assert s[i] == ds[i];
      } else {
        assert s[i] == tm[i - 9];
      }
    }
  }

  /** Neither timestamp contains a line break: both are digits, `T` and `Z`. */
  lemma TimestampsHaveNoNewline(t: UtcInstant)
    ensures '\n' !in DateStamp(t) && '\n' !in AmzDate(t)
  {
    var ds := DateStamp(t);
    var ad := AmzDate(t);
    forall i | 0 <= i < |ds| ensures ds[i] != '\n' {
      assert IsDigit(ds[i]);
    }
    forall i | 0 <= i < |ad| ensures ad[i] != '\n' {
      assert IsDigit(ad[i]) || ad[i] == 'T' || ad[i] == 'Z';
    }
  }
}
