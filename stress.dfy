/** The stress rater (app.py `get_stress_level`): the first character of the
    stripped rating reply, when it is a digit from 1 to 5; 1 otherwise. */
module Stress {
  import opened Text
  import opened Cooldown
  import opened Dispatcher

  /** The level that any failure of the rating run degrades to. */
  const DEFAULT_LEVEL: int := 1

  /** `raw[0].isdigit()` and `int(raw[0])` with the 1..5 range check. */
  function ParseLevel(raw: string): int {
    if |raw| > 0 && IsDigit(raw[0]) then
      var level := raw[0] as int - '0' as int;
      if 1 <= level <= 5 then level else DEFAULT_LEVEL
    else DEFAULT_LEVEL
  }

  /** The level of a rating run. Any exception, including an exhausted or
      aborted dispatch, gives the default level. */
  function StressLevel(rated: Outcome): (level: int)
    ensures 1 <= level <= 5
    ensures !rated.Success? ==> level == DEFAULT_LEVEL
    ensures rated.Success? && level != DEFAULT_LEVEL ==>
      |Strip(rated.text)| > 0 && Strip(rated.text)[0] as int == '0' as int + level
    ensures rated.Success? && |Strip(rated.text)| > 0 && '1' <= Strip(rated.text)[0] <= '5' ==>
      level == Strip(rated.text)[0] as int - '0' as int
  {
    if rated.Success? then ParseLevel(Strip(rated.text)) else DEFAULT_LEVEL
  }

  /** A rating reply consisting of a digit from 1 to 5, possibly preceded by
      whitespace and followed by anything, is read back as that digit. */
  lemma DigitReplyReadBack(ws: string, d: char, tail: string)
    requires forall k :: 0 <= k < |ws| ==> IsSpace(ws[k])
    requires '1' <= d <= '5'
    ensures StressLevel(Success(ws + [d] + tail)) == d as int - '0' as int
  {
    var x := [d] + tail;
    assert ws + [d] + tail == ws + x;
    StripStartSkips(ws, x);
    assert StripStart(x) == x;
    var r := Strip(ws + x);
    assert r == StripEnd(x);
    assert r != [];
    assert r[0] == d;
  }

  /** `get_stress_level`: one dispatch run over the rating request. */
  method RateStress(tracker: Tracker, hasKey: bool, priority: seq<string>, probes: seq<Probe>) returns (level: int)
    requires |probes| == |priority|
    modifies tracker
    ensures level == StressLevel(Dispatch(hasKey, priority, probes, old(tracker.states)).0)
    ensures tracker.states == Dispatch(hasKey, priority, probes, old(tracker.states)).1
  {
    var rated := Chat(tracker, hasKey, priority, probes);
    if rated.Success? {
      var raw := Strip(rated.text);
      if |raw| > 0 && IsDigit(raw[0]) {
        var digit := raw[0] as int - '0' as int;
        if 1 <= digit <= 5 {
          return digit;
        }
      }
    }
    return DEFAULT_LEVEL;
  }
}
