/**
 * The home page: the greeting for the hour, today's focus time and the
 * weekly total as hours and minutes, and the week's curve, whose points are
 * scaled by the largest day of the week (at least 1). The hour of the day is
 * a parameter.
 */
module HomePage {
  import opened Text

  /** Hours and minutes as `formatTime` returns them. */
  datatype Clock = Clock(hours: int, minutes: int)

  /** The greeting for the hour of the day `getHours()` reports (0 to 23). */
  function Greeting(hour: int): (g: string)
    ensures g == "Good morning" <==> hour < 12
    ensures g == "Good afternoon" <==> 12 <= hour < 18
    ensures g == "Good evening" <==> hour >= 18
  {
    if hour < 12 then "Good morning"
    else if hour < 18 then "Good afternoon"
    else "Good evening"
  }

  /** `formatTime`: `Math.floor(minutes / 60)` hours and JavaScript's `minutes % 60`. */
  function FormatTime(minutes: int): (c: Clock)
    ensures minutes >= 0 ==> 0 <= c.minutes < 60 && 60 * c.hours + c.minutes == minutes
    ensures 60 * c.hours <= minutes < 60 * c.hours + 60
  {
    Clock(minutes / 60, MinutesPart(minutes))
  }

  /** `todayTime.minutes.toString().padStart(2, '0')`: minutes within the hour show as two digits that read back. */
  function MinutesText(c: Clock): (r: string)
    ensures |r| >= 2
    ensures 0 <= c.minutes < 60 ==> |r| == 2 && AllDigits(r) && DecimalValue(r) == c.minutes
  {
    if 0 <= c.minutes then
      assert IntToString(c.minutes) == NatToString(c.minutes);
      assert PadStart(IntToString(c.minutes), 2, '0') == Pad2(c.minutes);
      PadStart(IntToString(c.minutes), 2, '0')
    else PadStart(IntToString(c.minutes), 2, '0')
  }

  /** `Math.max(...weekData, 1)`. */
  function MaxValue(weekData: seq<int>): (m: int)
    ensures m >= 1
    ensures forall i | 0 <= i < |weekData| :: weekData[i] <= m
    ensures m == 1 || m in weekData
    decreases |weekData|
  {
    if weekData == [] then 1
    else
      var rest := MaxValue(weekData[1..]);
      if weekData[0] >= rest then weekData[0] else rest
  }

  /** `weekData.reduce((a, b) => a + b, 0)`: for days without negative minutes, no day exceeds the total. */
  function WeekSum(weekData: seq<int>): (r: int)
    ensures weekData == [] ==> r == 0
    ensures (forall i | 0 <= i < |weekData| :: weekData[i] >= 0) ==>
      r >= 0 && forall i | 0 <= i < |weekData| :: weekData[i] <= r
    decreases |weekData|
  {
    if weekData == [] then 0
    else
      assert forall i | 0 <= i < |weekData[1..]| :: weekData[1..][i] == weekData[i + 1];
      weekData[0] + WeekSum(weekData[1..])
  }

  /**
   * The "Weekly Total" line: `Math.floor(total / 60)` hours and `total % 60`
   * minutes, which for days without negative minutes add up to the sum.
   */
  function WeeklyTotal(weekData: seq<int>): (c: Clock)
    ensures (forall i | 0 <= i < |weekData| :: weekData[i] >= 0) ==>
      0 <= c.minutes < 60 && 60 * c.hours + c.minutes == WeekSum(weekData)
  {
    FormatTime(WeekSum(weekData))
  }

  // ---------------------------------------------------------------------------
  // Properties of the page
  // ---------------------------------------------------------------------------

  /** The maximum is the largest day when some day reaches 1, and 1 for a week with no such day. */
  lemma {:induction false} MaxValueIsLargest(weekData: seq<int>)
    ensures (forall i | 0 <= i < |weekData| :: weekData[i] < 1) ==> MaxValue(weekData) == 1
    ensures (exists i | 0 <= i < |weekData| :: weekData[i] >= 1) ==> MaxValue(weekData) in weekData
    decreases |weekData|
  {
    if weekData != [] {
      MaxValueIsLargest(weekData[1..]);
      if forall i | 0 <= i < |weekData| :: weekData[i] < 1 {
        assert forall i | 0 <= i < |weekData[1..]| :: weekData[1..][i] < 1 by {
          forall i | 0 <= i < |weekData[1..]| ensures weekData[1..][i] < 1 {
            assert weekData[1..][i] == weekData[i + 1];
          }
        }
      }
    }
  }
}
