/** The `'%Y-%m-%dT%H:%M:%S'` timestamps of the cost query results, their
    parse (`datetime.strptime`) and the period labels (`strftime` with
    `'%Y-%m'` or `'%Y-%m-%d'`) that become the pivot's columns. */
module Timestamp {
  import opened Wrappers
  import opened Calendar

  datatype Stamp = Stamp(year: int, month: int, day: int, hour: int, minute: int, second: int)

  predicate IsDigit(c: char) {
    '0' <= c <= '9'
  }

  predicate AllDigits(s: string) {
    forall i :: 0 <= i < |s| ==> IsDigit(s[i])
  }

  function Pow10(n: nat): nat {
    if n == 0 then 1 else 10 * Pow10(n - 1)
  }

  /** The number a string of decimal digits spells. */
  function NatOf(s: string): (n: nat)
    requires AllDigits(s)
    ensures n < Pow10(|s|)
  {
    if s == [] then 0
    else NatOf(s[..|s| - 1]) * 10 + ((s[|s| - 1] as int) - ('0' as int))
  }

  /** `n` written with exactly `width` digits, zero-padded on the left. */
  function Pad(n: nat, width: nat): (s: string)
    requires n < Pow10(width)
    ensures |s| == width && AllDigits(s)
  {
    if width == 0 then []
    else Pad(n / 10, width - 1) + [(('0' as int) + n % 10) as char]
  }

  lemma {:induction false} NatOfPad(n: nat, width: nat)
    requires n < Pow10(width)
    ensures NatOf(Pad(n, width)) == n
  {
    if width > 0 {
      var s := Pad(n, width);
      assert s[..|s| - 1] == Pad(n / 10, width - 1);
      NatOfPad(n / 10, width - 1);
    }
  }

  lemma {:induction false} PadNatOf(s: string)
    requires AllDigits(s)
    ensures Pad(NatOf(s), |s|) == s
  {
    if s != [] {
      var init := s[..|s| - 1];
      PadNatOf(init);
      assert NatOf(s) / 10 == NatOf(init);
    }
  }

  /** The range checks `datetime.strptime` makes on the fields it read. */
  predicate ValidStamp(t: Stamp) {
    && ValidDate(Date(t.year, t.month, t.day))
    && 0 <= t.hour < 24 && 0 <= t.minute < 60 && 0 <= t.second < 60
  }

  /** The 19-character `YYYY-MM-DDTHH:MM:SS` shape. `strptime` matches its
      pattern ignoring case, so the separator `T` may also be `t`. */
  predicate Shaped(s: string) {
    && |s| == 19
    && s[4] == '-' && s[7] == '-' && (s[10] == 'T' || s[10] == 't') && s[13] == ':' && s[16] == ':'
    && AllDigits(s[0..4]) && AllDigits(s[5..7]) && AllDigits(s[8..10])
    && AllDigits(s[11..13]) && AllDigits(s[14..16]) && AllDigits(s[17..19])
  }

  function Fields(s: string): Stamp
    requires Shaped(s)
  {
    Stamp(NatOf(s[0..4]), NatOf(s[5..7]), NatOf(s[8..10]),
          NatOf(s[11..13]), NatOf(s[14..16]), NatOf(s[17..19]))
  }

  /** `strftime('%Y-%m-%dT%H:%M:%S')` */
  function Format(t: Stamp): (s: string)
    requires ValidStamp(t)
    ensures |s| == 19
  {
    Pad(t.year, 4) + "-" + Pad(t.month, 2) + "-" + Pad(t.day, 2) + "T"
    + Pad(t.hour, 2) + ":" + Pad(t.minute, 2) + ":" + Pad(t.second, 2)
  }

  /** `datetime.strptime(s, '%Y-%m-%dT%H:%M:%S')`; `None` where Python raises
      `ValueError`. A parsed stamp is valid, and formatting it gives back the
      input with its separator written `T`. */
  function Parse(s: string): (r: Option<Stamp>)
    ensures r.Some? ==> |s| == 19 && ValidStamp(r.value) && Format(r.value) == s[10 := 'T']
  {
    if Shaped(s) && ValidStamp(Fields(s)) then
      FormatFields(s);
      Some(Fields(s))
    else None
  }

  lemma FormatFields(s: string)
    requires Shaped(s) && ValidStamp(Fields(s))
    ensures Format(Fields(s)) == s[10 := 'T']
  {
    PadNatOf(s[0..4]);
    PadNatOf(s[5..7]);
    PadNatOf(s[8..10]);
    PadNatOf(s[11..13]);
    PadNatOf(s[14..16]);
    PadNatOf(s[17..19]);
    ShapedSplit(s);
  }

  lemma ShapedSplit(s: string)
    requires Shaped(s)
    ensures s[10 := 'T'] == s[0..4] + "-" + s[5..7] + "-" + s[8..10] + "T"
      + s[11..13] + ":" + s[14..16] + ":" + s[17..19]
  {
    var u := s[10 := 'T'];
    assert u[0..4] == s[0..4] && u[5..7] == s[5..7] && u[8..10] == s[8..10];
    assert u[11..13] == s[11..13] && u[14..16] == s[14..16] && u[17..19] == s[17..19];
    assert u[4..5] == "-" && u[7..8] == "-" && u[10..11] == "T" && u[13..14] == ":" && u[16..17] == ":";
    assert u == u[0..4] + u[4..5] + u[5..7] + u[7..8] + u[8..10] + u[10..11]
      + u[11..13] + u[13..14] + u[14..16] + u[16..17] + u[17..19];
  }

  /** Formatting a valid stamp gives a string that parses back to it, also
      with its separator written in lower case. */
  lemma ParseFormat(t: Stamp)
    requires ValidStamp(t)
    ensures Parse(Format(t)) == Some(t)
    ensures Parse(Format(t)[10 := 't']) == Some(t)
  {
    var s := Format(t);
    assert s[0..4] == Pad(t.year, 4);
    assert s[5..7] == Pad(t.month, 2);
    assert s[8..10] == Pad(t.day, 2);
    assert s[11..13] == Pad(t.hour, 2);
    assert s[14..16] == Pad(t.minute, 2);
    assert s[17..19] == Pad(t.second, 2);
    NatOfPad(t.year, 4);
    NatOfPad(t.month, 2);
    NatOfPad(t.day, 2);
    NatOfPad(t.hour, 2);
    NatOfPad(t.minute, 2);
    NatOfPad(t.second, 2);
    var l := s[10 := 't'];
    assert l[0..4] == s[0..4] && l[5..7] == s[5..7] && l[8..10] == s[8..10];
    assert l[11..13] == s[11..13] && l[14..16] == s[14..16] && l[17..19] == s[17..19];
  }

  /** A string parses exactly when it is the formatting of a valid stamp,
      with its separator in either case. */
  lemma {:induction false} ParseExactlyFormatted(s: string)
    ensures Parse(s).Some? <==>
      exists t :: ValidStamp(t) && (Format(t) == s || Format(t)[10 := 't'] == s)
  {
    if Parse(s).Some? {
      var t := Parse(s).value;
      assert Format(t) == s[10 := 'T'];
      if s[10] == 'T' {
        assert Format(t) == s;
      } else {
        assert Format(t)[10 := 't'] == s;
      }
    } else {
      forall t | ValidStamp(t)
        ensures Format(t) != s && Format(t)[10 := 't'] != s
      {
        ParseFormat(t);
      }
    }
  }

  /** Width of the period label: `'%Y-%m'` under MONTHLY, `'%Y-%m-%d'` under
      every other granularity. */
  function LabelWidth(granularity: string): nat {
    if granularity == "MONTHLY" then 7 else 10
  }

  /** `strftime(format_date)` of a parsed timestamp: the leading date fields
      of the full formatting, through the month or through the day. */
  function PeriodLabel(granularity: string, t: Stamp): (p: string)
    requires ValidStamp(t)
    ensures p == Format(t)[..LabelWidth(granularity)]
  {
    var month := Pad(t.year, 4) + "-" + Pad(t.month, 2);
    var f := Format(t);
    assert f[..7] == month;
    if granularity == "MONTHLY" then month
    else
      assert f[..10] == month + "-" + Pad(t.day, 2);
      month + "-" + Pad(t.day, 2)
  }

  /** The period label of a parsed timestamp is its 7-character prefix under
      MONTHLY and its 10-character prefix otherwise. */
  lemma PeriodLabelIsPrefix(granularity: string, s: string)
    requires Parse(s).Some?
    ensures PeriodLabel(granularity, Parse(s).value) == s[..LabelWidth(granularity)]
  {
    assert s[10 := 'T'][..LabelWidth(granularity)] == s[..LabelWidth(granularity)];
  }
}
