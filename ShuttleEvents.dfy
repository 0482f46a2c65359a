/** The ShuttleXpress report layout and the events decoded from two consecutive
    reports, as pure functions, with the properties the decoder promises. */
module ShuttleEvents {
  import opened Wrappers

  /** One unsigned 8-bit field of a HID report. */
  type Byte = x: int | 0 <= x < 256

  /** A raw input report: five bytes. Byte 0 is the jog code, byte 1 the
      free-running shuttle increment counter, byte 2 is never read, byte 3 the
      bitmask of buttons 1 to 4 and byte 4 the bitmask of button 5. */
  type Report = r: seq<Byte> | |r| == 5 witness [0, 0, 0, 0, 0]

  const ZERO_REPORT: Report := [0, 0, 0, 0, 0]

  const BTN_1: Byte := 16
  const BTN_2: Byte := 32
  const BTN_3: Byte := 64
  const BTN_4: Byte := 128
  const BTN_5: Byte := 1

  const JOG_ZONE_NEUTRAL: Byte := 0
  const JOG_ZONE_POSITIVE_MIN: Byte := 1
  const JOG_ZONE_POSITIVE_MAX: Byte := 7
  const JOG_ZONE_NEGATIVE_MIN: Byte := 255
  const JOG_ZONE_NEGATIVE_MAX: Byte := 249

  const INCREMENT_MIN: Byte := 0
  const INCREMENT_MAX: Byte := 255

  /** The fields a report is compared on, highest priority first. */
  const PRIORITY: seq<nat> := [0, 3, 4, 1]

  /** A decoded event. `raw` is the byte of the current report that produced it. */
  datatype Event =
    | Jog(value: int, raw: Byte)
    | Button(n: nat, pressed: bool, raw: Byte)
    | Increment(delta: int, raw: Byte)
  {
    /** The index of the report byte this kind of event is decoded from. */
    function Field(): (i: nat) {
      match this
      case Jog(_, _) => 0
      case Button(n, _, _) => if n == 5 then 4 else 3
      case Increment(_, _) => 1
    }

    /** The position of that byte in PRIORITY. */
    function Rank(): (k: nat) {
      match this
      case Jog(_, _) => 0
      case Button(n, _, _) => if n == 5 then 2 else 1
      case Increment(_, _) => 3
    }
  }

  // ---------------------------------------------------------------------------
  // Jog wheel (byte 0)
  // ---------------------------------------------------------------------------

  /** The jog event for a changed jog code: zone 0 is neutral, 1..7 the
      positive zone, 249..255 the negative zone; codes 8..248 give no event. */
  function JogEvent(code: Byte): (r: Option<Event>)
    ensures r.Some? <==> (code <= JOG_ZONE_POSITIVE_MAX || code >= JOG_ZONE_NEGATIVE_MAX)
    ensures r.Some? ==> r.value.Jog? && r.value.raw == code
    ensures r.Some? ==> -7 <= r.value.value <= 7 && r.value.value % 256 == code
  {
    if code == JOG_ZONE_NEUTRAL then Some(Jog(code, code))
    else if JOG_ZONE_POSITIVE_MIN <= code <= JOG_ZONE_POSITIVE_MAX then Some(Jog(code, code))
    else if JOG_ZONE_NEGATIVE_MAX <= code <= JOG_ZONE_NEGATIVE_MIN then
      Some(Jog((JOG_ZONE_NEGATIVE_MIN - (code - 1)) * -1, code))
    else None
  }

  /** The jog code the device sends for a position in -7..7: the position as a
      two's-complement byte. */
  function JogCode(position: int): (code: Byte)
    requires -7 <= position <= 7
    ensures code == position || code == position + 256
  {
    position % 256
  }

  /** Every position in -7..7 is reported back exactly from its code. */
  lemma JogRoundTrip(position: int)
    requires -7 <= position <= 7
    ensures JogEvent(JogCode(position)) == Some(Jog(position, JogCode(position)))
  {
  }

  /** Every recognised code is the code of the position it reports. */
  lemma JogCodeOfEvent(code: Byte)
    requires JogEvent(code).Some?
    ensures JogCode(JogEvent(code).value.value) == code
  {
  }

  /** The zones, stated pointwise: 0 is JOG 0, 1..7 keep their value,
      249..255 are the code minus 256, and 8..248 give no event. */
  lemma JogZones(code: Byte)
    ensures code == 0 ==> JogEvent(code) == Some(Jog(0, 0))
    ensures 1 <= code <= 7 ==> JogEvent(code) == Some(Jog(code, code))
    ensures 249 <= code ==> JogEvent(code) == Some(Jog(code - 256, code))
    ensures 8 <= code <= 248 ==> JogEvent(code) == None
  {
  }

  // ---------------------------------------------------------------------------
  // Buttons (bytes 3 and 4)
  // ---------------------------------------------------------------------------

  /** One press or release test: a press of button `n` is recognised when the
      current byte equals `mask`, a release when the previous byte does. */
  datatype Check = Check(n: nat, mask: Byte, pressed: bool)

  predicate Matches(c: Check, previous: Byte, now: Byte) {
    if c.pressed then now == c.mask else previous == c.mask
  }

  /** The tests on byte 3, in evaluation order: press then release of each of
      buttons 1 to 4. */
  const BUTTON_CHECKS: seq<Check> := [
    Check(1, BTN_1, true), Check(1, BTN_1, false),
    Check(2, BTN_2, true), Check(2, BTN_2, false),
    Check(3, BTN_3, true), Check(3, BTN_3, false),
    Check(4, BTN_4, true), Check(4, BTN_4, false)
  ]

  /** The tests on byte 4: press then release of button 5. */
  const BUTTON5_CHECKS: seq<Check> := [Check(5, BTN_5, true), Check(5, BTN_5, false)]

  /** The index of the last test in `checks` that matches, if any. */
  function LastMatchIndex(checks: seq<Check>, previous: Byte, now: Byte): (r: Option<nat>)
    ensures r.Some? ==> r.value < |checks| && Matches(checks[r.value], previous, now)
    ensures r.Some? ==> forall j :: r.value < j < |checks| ==> !Matches(checks[j], previous, now)
    ensures r.None? ==> forall j :: 0 <= j < |checks| ==> !Matches(checks[j], previous, now)
    decreases |checks|
  {
    if checks == [] then None
    else if Matches(checks[|checks| - 1], previous, now) then Some(|checks| - 1)
    else LastMatchIndex(checks[..|checks| - 1], previous, now)
  }

  /** The button event for a changed button byte: the LAST of `checks` that
      matches wins; `raw` is the current byte even for a release. */
  function ButtonEvent(checks: seq<Check>, previous: Byte, now: Byte): (r: Option<Event>)
    ensures r.None? <==> forall j :: 0 <= j < |checks| ==> !Matches(checks[j], previous, now)
    ensures r.Some? ==> r.value.Button? && r.value.raw == now
    ensures r.Some? ==> exists j :: 0 <= j < |checks| && Matches(checks[j], previous, now) &&
                                    checks[j].n == r.value.n && checks[j].pressed == r.value.pressed
  {
    match LastMatchIndex(checks, previous, now)
    case None => None
    case Some(i) => Some(Button(checks[i].n, checks[i].pressed, now))
  }

  /** "Last match wins" on byte 3, stated as a first-match scan in reverse
      evaluation order: the release of button 4 beats everything, then the
      press of button 4, then the release of button 3, and so on. */
  lemma {:induction false} ButtonEventReverseOrder(previous: Byte, now: Byte)
    ensures ButtonEvent(BUTTON_CHECKS, previous, now) ==
      if previous == BTN_4 then Some(Button(4, false, now))
      else if now == BTN_4 then Some(Button(4, true, now))
      else if previous == BTN_3 then Some(Button(3, false, now))
      else if now == BTN_3 then Some(Button(3, true, now))
      else if previous == BTN_2 then Some(Button(2, false, now))
      else if now == BTN_2 then Some(Button(2, true, now))
      else if previous == BTN_1 then Some(Button(1, false, now))
      else if now == BTN_1 then Some(Button(1, true, now))
      else None
  {
    var r := LastMatchIndex(BUTTON_CHECKS, previous, now);
    assert Matches(BUTTON_CHECKS[7], previous, now) <==> previous == BTN_4;
    assert Matches(BUTTON_CHECKS[6], previous, now) <==> now == BTN_4;
    assert Matches(BUTTON_CHECKS[5], previous, now) <==> previous == BTN_3;
    assert Matches(BUTTON_CHECKS[4], previous, now) <==> now == BTN_3;
    assert Matches(BUTTON_CHECKS[3], previous, now) <==> previous == BTN_2;
    assert Matches(BUTTON_CHECKS[2], previous, now) <==> now == BTN_2;
    assert Matches(BUTTON_CHECKS[1], previous, now) <==> previous == BTN_1;
    assert Matches(BUTTON_CHECKS[0], previous, now) <==> now == BTN_1;
  }

  /** Pressing button k from nothing pressed, then releasing it, is decoded as
      that press and that release. */
  lemma ButtonPressThenRelease(k: nat)
    requires 1 <= k <= 4
    ensures ButtonEvent(BUTTON_CHECKS, 0, BUTTON_CHECKS[2 * (k - 1)].mask) ==
            Some(Button(k, true, BUTTON_CHECKS[2 * (k - 1)].mask))
    ensures ButtonEvent(BUTTON_CHECKS, BUTTON_CHECKS[2 * (k - 1)].mask, 0) == Some(Button(k, false, 0))
  {
    var mask := BUTTON_CHECKS[2 * (k - 1)].mask;
    ButtonEventReverseOrder(0, mask);
    ButtonEventReverseOrder(mask, 0);
  }

  /** When neither byte is a single-button mask (for example 48, buttons 1 and
      2 together, pressed from 0) no button event is decoded. */
  lemma ButtonNoSingleMask(previous: Byte, now: Byte)
    requires previous !in {BTN_1, BTN_2, BTN_3, BTN_4} && now !in {BTN_1, BTN_2, BTN_3, BTN_4}
    ensures ButtonEvent(BUTTON_CHECKS, previous, now) == None
  {
    ButtonEventReverseOrder(previous, now);
  }

  /** Button 5 on a changed byte 4: a press when the byte is now 1, a release
      when it was 1, otherwise nothing. */
  lemma Button5Cases(previous: Byte, now: Byte)
    requires previous != now
    ensures ButtonEvent(BUTTON5_CHECKS, previous, now) ==
      if now == BTN_5 then Some(Button(5, true, now))
      else if previous == BTN_5 then Some(Button(5, false, now))
      else None
  {
    assert Matches(BUTTON5_CHECKS[1], previous, now) <==> previous == BTN_5;
    assert Matches(BUTTON5_CHECKS[0], previous, now) <==> now == BTN_5;
  }

  // ---------------------------------------------------------------------------
  // Shuttle increment counter (byte 1)
  // ---------------------------------------------------------------------------

  /** The direction of a change of the free-running increment counter, with a
      step between 255 and 0 read as a wrap rather than a jump. */
  function IncrementEvent(previous: Byte, now: Byte): (r: Option<Event>)
    ensures r.None? <==> previous == now
    ensures r.Some? ==> r.value.Increment? && r.value.raw == now
    ensures r.Some? ==> r.value.delta == 1 || r.value.delta == -1
    ensures r.Some? ==>
      (r.value.delta == 1 <==> (now > previous) != ({previous, now} == {INCREMENT_MIN, INCREMENT_MAX}))
  {
    if previous == INCREMENT_MAX && now == INCREMENT_MIN then Some(Increment(1, now))
    else if previous == INCREMENT_MIN && now == INCREMENT_MAX then Some(Increment(-1, now))
    else if now > previous then Some(Increment(1, now))
    else if now < previous then Some(Increment(-1, now))
    else None
  }

  /** One step of the counter, up or down modulo 256, is reported as +1 or -1,
      including the wrap between 255 and 0. */
  lemma IncrementOneStep(previous: Byte)
    ensures IncrementEvent(previous, (previous + 1) % 256) == Some(Increment(1, (previous + 1) % 256))
    ensures IncrementEvent(previous, (previous + 255) % 256) == Some(Increment(-1, (previous + 255) % 256))
  {
  }

  /** Directions of some counter moves: a plain rise or fall, and moves that
      end at 0 or 255 without being the wrap between them. */
  lemma IncrementDirections()
    ensures IncrementEvent(10, 20) == Some(Increment(1, 20))
    ensures IncrementEvent(20, 10) == Some(Increment(-1, 10))
    ensures IncrementEvent(1, 255) == Some(Increment(1, 255))
    ensures IncrementEvent(254, 0) == Some(Increment(-1, 0))
  {
  }

  /** Going back over the same change reports the opposite direction. */
  lemma IncrementAntisymmetric(a: Byte, b: Byte)
    requires a != b
    ensures IncrementEvent(a, b).value.delta == -IncrementEvent(b, a).value.delta
  {
  }

  // ---------------------------------------------------------------------------
  // The whole report
  // ---------------------------------------------------------------------------

  /** The event decoded from the current report `now` against the previous
      report: the first changed field in the order jog, buttons 1-4, button 5,
      increment decides, and the others are not looked at. */
  function Classify(previous: Report, now: Report): (r: Option<Event>)
    ensures r.Some? ==> r.value.raw == now[r.value.Field()]
    ensures r.Some? ==> now[r.value.Field()] != previous[r.value.Field()]
    ensures now[0] != previous[0] ==> r.None? || r.value.Jog?
    ensures r.Some? ==> forall k :: 0 <= k < r.value.Rank() ==> now[PRIORITY[k]] == previous[PRIORITY[k]]
  {
    if now[0] != previous[0] then JogEvent(now[0])
    else if now[3] != previous[3] then
      ButtonEventReverseOrder(previous[3], now[3]);
      ButtonEvent(BUTTON_CHECKS, previous[3], now[3])
    else if now[4] != previous[4] then
      Button5Cases(previous[4], now[4]);
      ButtonEvent(BUTTON5_CHECKS, previous[4], now[4])
    else IncrementEvent(previous[1], now[1])
  }

  /** The fields `_getShuttleEvent` writes back into the previous report: the
      changed field it handled, and the increment field. */
  function PreviousAfter(previous: Report, now: Report): (r: Report)
    ensures r[1] == now[1] && r[2] == previous[2]
    ensures forall i :: 0 <= i < 5 ==> r[i] == previous[i] || r[i] == now[i]
    ensures now[0] != previous[0] ==> r[0] == now[0] && r[3] == previous[3] && r[4] == previous[4]
    ensures now[0] == previous[0] && now[3] != previous[3] ==> r[3] == now[3] && r[4] == previous[4]
    ensures now[0] == previous[0] && now[3] == previous[3] ==> r[4] == now[4]
  {
    if now[0] != previous[0] then previous[0 := now[0]][1 := now[1]]
    else if now[3] != previous[3] then previous[3 := now[3]][1 := now[1]]
    else if now[4] != previous[4] then previous[4 := now[4]][1 := now[1]]
    else if now[1] != previous[1] then previous[1 := now[1]]
    else previous
  }

  /** A changed jog code decides the call alone: the event is the jog event
      (or none) whatever bytes 1 to 4 hold. */
  lemma JogPriority(previous: Report, now: Report, other: Report)
    requires now[0] != previous[0] && other[0] == now[0]
    ensures Classify(previous, now) == JogEvent(now[0])
    ensures Classify(previous, now) == Classify(previous, other)
  {
  }

  /** With the jog code unchanged, a changed button byte decides the call
      whatever bytes 1, 2 and 4 hold. */
  lemma ButtonPriority(previous: Report, now: Report, other: Report)
    requires now[0] == previous[0] && now[3] != previous[3]
    requires other[0] == now[0] && other[3] == now[3]
    ensures Classify(previous, now) == ButtonEvent(BUTTON_CHECKS, previous[3], now[3])
    ensures Classify(previous, now) == Classify(previous, other)
  {
  }

  /** With bytes 0 and 3 unchanged, a changed byte 4 decides the call
      whatever bytes 1 and 2 hold. */
  lemma Button5Priority(previous: Report, now: Report, other: Report)
    requires now[0] == previous[0] && now[3] == previous[3] && now[4] != previous[4]
    requires other[0] == now[0] && other[3] == now[3] && other[4] == now[4]
    ensures Classify(previous, now) == ButtonEvent(BUTTON5_CHECKS, previous[4], now[4])
    ensures Classify(previous, now) == Classify(previous, other)
  {
  }

  /** The increment counter is classified only when bytes 0, 3 and 4 are all
      unchanged. */
  lemma IncrementOnlyWhenOthersUnchanged(previous: Report, now: Report)
    requires Classify(previous, now).Some? && Classify(previous, now).value.Increment?
    ensures now[0] == previous[0] && now[3] == previous[3] && now[4] == previous[4]
    ensures Classify(previous, now) == IncrementEvent(previous[1], now[1])
  {
  }

  /** With bytes 0, 3 and 4 unchanged, the increment counter decides the
      call: a change of byte 1 is always reported as an increment. */
  lemma IncrementPriority(previous: Report, now: Report)
    requires now[0] == previous[0] && now[3] == previous[3] && now[4] == previous[4]
    ensures Classify(previous, now) == IncrementEvent(previous[1], now[1])
    ensures now[1] != previous[1] ==> Classify(previous, now).Some? && Classify(previous, now).value.Increment?
  {
  }

  /** No event unless one of bytes 0, 1, 3, 4 changed. */
  lemma NoChangeNoEvent(previous: Report, now: Report)
    requires now[0] == previous[0] && now[1] == previous[1] && now[3] == previous[3] && now[4] == previous[4]
    ensures Classify(previous, now) == None
  {
  }

  /** Byte 2 is never read: changing it in either report changes nothing. */
  lemma ByteTwoIgnored(previous: Report, now: Report, b: Byte, c: Byte)
    ensures Classify(previous[2 := b], now[2 := c]) == Classify(previous, now)
  {
  }

  /** The same report twice in a row gives no event the second time. */
  lemma SameReportTwice(report: Report)
    ensures Classify(report, report) == None
  {
  }

  /** An out-of-zone jog code gives no event, yet the next report is compared
      against it: here the following increment is still reported. */
  lemma AbsorbedJogAdvancesState()
    ensures Classify([0, 10, 0, 0, 0], [100, 10, 0, 0, 0]) == None
    ensures Classify([100, 10, 0, 0, 0], [100, 50, 0, 0, 0]) == Some(Increment(1, 50))
  {
  }

  /** The fields written back into the previous report do not determine the
      next comparison: had the decoder kept that mutated report instead of the
      delivered one, a button release would be decoded from a report that in
      fact repeats the last one. */
  lemma PreviousWritesAreDiscarded()
    ensures PreviousAfter([0, 0, 0, 16, 0], [3, 0, 0, 0, 0]) == [3, 0, 0, 16, 0]
    ensures Classify(PreviousAfter([0, 0, 0, 16, 0], [3, 0, 0, 0, 0]), [3, 0, 0, 0, 0]) == Some(Button(1, false, 0))
    ensures Classify([3, 0, 0, 0, 0], [3, 0, 0, 0, 0]) == None
  {
    ButtonEventReverseOrder(16, 0);
  }
}
