/**
 * The calendar-week key stored in every match record ("yyyy-ww") and the
 * label shown for the oldest record ("yyyywww").
 * minqlx/funes.py:36-38 and minqlx/funes.py:90-94.
 */
module Weeks {
  import opened Decimal

  /** `'%02d' % w`: at least two digits, left-padded with zero. */
  function Pad2(w: nat): (s: string)
    ensures IsDigits(s)
    ensures w < 100 ==> |s| == 2
    ensures ParseDigits(s) == w
  {
    ParseNatToString(w);
    if w < 10 then
      var t := "0" + NatToString(w);
      assert t[..|t| - 1] == "0";
      t
    else NatToString(w)
  }

  /** `get_week_key` for the ISO (year, week) of the current day. */
  function WeekKey(isoYear: nat, isoWeek: nat): string {
    NatToString(isoYear) + "-" + Pad2(isoWeek)
  }

  /** Digits are never a dash, so the first dash of a week key is right after the year. */
  lemma WeekKeyShape(isoYear: nat, isoWeek: nat)
    ensures var key, y := WeekKey(isoYear, isoWeek), NatToString(isoYear);
      |key| == |y| + 1 + |Pad2(isoWeek)| &&
      key[..|y|] == y && key[|y|] == '-' && key[|y| + 1..] == Pad2(isoWeek) &&
      forall i :: 0 <= i < |y| ==> key[i] != '-'
  {
    var key, y, p := WeekKey(isoYear, isoWeek), NatToString(isoYear), Pad2(isoWeek);
    assert key == (y + "-") + p;
    assert key[..|y|] == y;
    assert key[|y| + 1..] == p;
  }

  /**
   * Different weeks never share a key, so the current-week filter selects
   * exactly the records of one (year, week).
   */
  lemma WeekKeyInjective(y1: nat, w1: nat, y2: nat, w2: nat)
    requires WeekKey(y1, w1) == WeekKey(y2, w2)
    ensures y1 == y2 && w1 == w2
  {
    var key := WeekKey(y1, w1);
    var s1, s2 := NatToString(y1), NatToString(y2);
    WeekKeyShape(y1, w1);
    WeekKeyShape(y2, w2);
    assert |s1| == |s2|;
    assert s1 == s2;
    NatToStringInjective(y1, y2);
    assert Pad2(w1) == Pad2(w2);
  }

  /** `s.replace(from, to)` for single characters. */
  function ReplaceChar(s: string, from: char, to: char): (r: string)
    ensures |r| == |s|
    ensures forall i :: 0 <= i < |s| ==> r[i] == (if s[i] == from then to else s[i])
  {
    if s == [] then []
    else [if s[0] == from then to else s[0]] + ReplaceChar(s[1..], from, to)
  }

  /** Replacing characters distributes over concatenation. */
  lemma ReplaceCharConcat(a: string, b: string, from: char, to: char)
    ensures ReplaceChar(a + b, from, to) == ReplaceChar(a, from, to) + ReplaceChar(b, from, to)
  {
    var whole, parts := ReplaceChar(a + b, from, to), ReplaceChar(a, from, to) + ReplaceChar(b, from, to);
    forall i | 0 <= i < |whole| ensures whole[i] == parts[i] {
      if i < |a| {
        assert (a + b)[i] == a[i] && parts[i] == ReplaceChar(a, from, to)[i];
      } else {
        assert (a + b)[i] == b[i - |a|] && parts[i] == ReplaceChar(b, from, to)[i - |a|];
      }
    }
  }

  /** Decimal digits contain no dash, so the replacement leaves them alone. */
  lemma ReplaceDashInDigits(s: string)
    requires IsDigits(s)
    ensures ReplaceChar(s, '-', 'w') == s
  {
    var r := ReplaceChar(s, '-', 'w');
    assert forall i :: 0 <= i < |s| ==> r[i] == s[i];
  }

  /** For a key written by `WeekKey`, the label is the year, 'w', then the padded week. */
  lemma FirstWeekOfWeekKey(isoYear: nat, isoWeek: nat)
    ensures ReplaceChar(WeekKey(isoYear, isoWeek), '-', 'w') ==
      NatToString(isoYear) + "w" + Pad2(isoWeek)
  {
    var y, p := NatToString(isoYear), Pad2(isoWeek);
    ReplaceCharConcat(y + "-", p, '-', 'w');
    ReplaceCharConcat(y, "-", '-', 'w');
    ReplaceDashInDigits(y);
    ReplaceDashInDigits(p);
    assert ReplaceChar("-", '-', 'w') == "w";
  }
}
