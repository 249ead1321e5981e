/**
 * `humanize_time` without milliseconds: a duration in milliseconds as
 * "<h>h <m>m <s>s", leaving out a zero hour or minute segment.
 */
module Humanize {
  import opened Text

  const MsPerSecond := 1000
  const MsPerMinute := 60 * MsPerSecond
  const MsPerHour := 60 * MsPerMinute

  lemma DivBelow(a: int, b: int, c: int)
    requires 0 <= a < b * c && b > 0
    ensures 0 <= a / b < c
  {
  }

  /** `Math.floor((t / unit) % m)` on JavaScript numbers, for an integer `t`: the
      remainder takes the sign of the dividend, and the floor then rounds down. */
  function FloorRem(t: int, unit: nat, m: nat): (r: int)
    requires unit > 0 && m > 0
    ensures t >= 0 ==> 0 <= r < m
    ensures t < 0 ==> -(m as int) <= r <= 0
  {
    if t >= 0 then (t / unit) % m
    else
      var x := (-t) % (unit * m);
      assert 0 <= x + unit - 1 < unit * (m + 1) by {
        assert unit * (m + 1) == unit * m + unit;
      }
      DivBelow(x + unit - 1, unit, m + 1);
      -((x + unit - 1) / unit)
  }

  /** `Math.floor(t / 3600000)`: Dafny's division by a positive number already rounds down. */
  function Hours(t: int): int { t / MsPerHour }

  function Minutes(t: int): int { FloorRem(t, MsPerMinute, 60) }

  function Seconds(t: int): int { FloorRem(t, MsPerSecond, 60) }

  function HumanizeTime(t: int): (r: string)
    ensures EndsWith(r, "s")
  {
    var h := Hours(t);
    var m := Minutes(t);
    (if h > 0 then IntToString(h) + "h " else "")
    + (if m > 0 then IntToString(m) + "m " else "")
    + IntToString(Seconds(t)) + "s"
  }

  /** For a non-negative duration, the three parts are the duration cut down to whole seconds. */
  lemma PartsOfDuration(t: int)
    requires t >= 0
    ensures 0 <= Minutes(t) < 60 && 0 <= Seconds(t) < 60
    ensures var whole := Hours(t) * MsPerHour + Minutes(t) * MsPerMinute + Seconds(t) * MsPerSecond;
      whole <= t < whole + MsPerSecond
  {
    var s := t / 1000;
    assert t / 60000 == s / 60;
    assert t / 3600000 == s / 3600;
    assert (s / 60) / 60 == s / 3600;
  }

  /** A rendered number holds neither 'h', 'm' nor 's'. */
  lemma NumberLetters(i: int)
    ensures 'h' !in IntToString(i) && 'm' !in IntToString(i) && 's' !in IntToString(i)
  {
    var r := IntToString(i);
    forall k | 0 <= k < |r| ensures r[k] != 'h' && r[k] != 'm' && r[k] != 's' {
      assert IsDigit(r[k]) || r[k] == '-';
    }
  }

  /** The hour segment appears exactly when there is a whole hour, the minute segment exactly
      when the minute count is positive, hours before minutes, and the text ends with the seconds. */
  lemma Segments(t: int)
    ensures var r := HumanizeTime(t);
      && ('h' in r <==> Hours(t) > 0)
      && ('m' in r <==> Minutes(t) > 0)
      && (Hours(t) > 0 && Minutes(t) > 0 ==>
            exists i, j :: 0 <= i < j < |r| && r[i] == 'h' && r[j] == 'm')
  {
    var h, m, s := Hours(t), Minutes(t), Seconds(t);
    NumberLetters(h);
    NumberLetters(m);
    NumberLetters(s);
    var hs := if h > 0 then IntToString(h) + "h " else "";
    var ms := if m > 0 then IntToString(m) + "m " else "";
    var ss := IntToString(s) + "s";
    var r := HumanizeTime(t);
    assert r == hs + ms + ss;
    assert 'h' !in ms && 'h' !in ss && 'm' !in hs && 'm' !in ss;
    assert 'h' in r <==> 'h' in hs;
    assert 'm' in r <==> 'm' in ms;
    if h > 0 && m > 0 {
      var i := |IntToString(h)|;
      var j := |hs| + |IntToString(m)|;
      assert r[i] == hs[i] == 'h';
      assert r[j] == ms[j - |hs|] == 'm';
    }
  }
}
