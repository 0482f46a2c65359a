/** The decoder object: a two-slot queue of reports, a method that compares
    the two and shifts the queue, and the `data` handler that feeds it. */
module ShuttleXpress {
  import opened Wrappers
  import opened ShuttleEvents

  class ShuttleXpress {
    /** The report queue. Between deliveries it holds the last delivered
        report; during a delivery the new report is queued behind it. */
    var buffers: seq<array<Byte>>

    /** Between deliveries: exactly one queued report of five bytes. */
    ghost predicate Valid()
      reads this
    {
      |buffers| == 1 && buffers[0].Length == 5
    }

    /** The report the next delivery is compared against. */
    function Last(): (r: Report)
      requires Valid()
      reads this, buffers[0]
    {
      buffers[0][..]
    }

    /** The queue starts with one all-zero report. */
    constructor ()
      ensures Valid() && fresh(buffers[0])
      ensures Last() == ZERO_REPORT
    {
      var zero := new Byte[5](_ => 0);
      buffers := [zero];
    }

    /** Compares the newly queued report with the one before it, writes the
        handled fields back into that previous report, and shifts it out of
        the queue. */
    method GetShuttleEvent() returns (shuttleEvent: Option<Event>)
      requires |buffers| == 2 && buffers[0].Length == 5 && buffers[1].Length == 5
      requires buffers[0] != buffers[1]
      modifies this, buffers[0]
      ensures buffers == [old(buffers[1])]
      ensures shuttleEvent == Classify(old(buffers[0][..]), old(buffers[1][..]))
      ensures old(buffers[0])[..] == PreviousAfter(old(buffers[0][..]), old(buffers[1][..]))
      ensures buffers[0][..] == old(buffers[1][..])
    {
      var previous := buffers[0];
      var now := buffers[1];
      shuttleEvent := None;

      if now[0] != previous[0] {
        if now[0] == JOG_ZONE_NEUTRAL {
          shuttleEvent := Some(Jog(now[0], now[0]));
        } else if now[0] >= JOG_ZONE_POSITIVE_MIN && now[0] <= JOG_ZONE_POSITIVE_MAX {
          shuttleEvent := Some(Jog(now[0], now[0]));
        } else if now[0] <= JOG_ZONE_NEGATIVE_MIN && now[0] >= JOG_ZONE_NEGATIVE_MAX {
          shuttleEvent := Some(Jog((JOG_ZONE_NEGATIVE_MIN - (now[0] - 1)) * -1, now[0]));
        }
        previous[0] := now[0];
        previous[1] := now[1];
      } else if now[3] != previous[3] {
        ButtonEventReverseOrder(previous[3], now[3]);
        if now[3] == BTN_1 { shuttleEvent := Some(Button(1, true, now[3])); }
        if previous[3] == BTN_1 { shuttleEvent := Some(Button(1, false, now[3])); }
        if now[3] == BTN_2 { shuttleEvent := Some(Button(2, true, now[3])); }
        if previous[3] == BTN_2 { shuttleEvent := Some(Button(2, false, now[3])); }
        if now[3] == BTN_3 { shuttleEvent := Some(Button(3, true, now[3])); }
        if previous[3] == BTN_3 { shuttleEvent := Some(Button(3, false, now[3])); }
        if now[3] == BTN_4 { shuttleEvent := Some(Button(4, true, now[3])); }
        if previous[3] == BTN_4 { shuttleEvent := Some(Button(4, false, now[3])); }
        previous[3] := now[3];
        previous[1] := now[1];
      } else if now[4] != previous[4] {
        Button5Cases(previous[4], now[4]);
        if now[4] == BTN_5 { shuttleEvent := Some(Button(5, true, now[4])); }
        if previous[4] == BTN_5 { shuttleEvent := Some(Button(5, false, now[4])); }
        previous[4] := now[4];
        previous[1] := now[1];
      } else {
        if now[1] != previous[1] {
          if previous[1] == INCREMENT_MAX && now[1] == INCREMENT_MIN {
            shuttleEvent := Some(Increment(1, now[1]));
          } else if previous[1] == INCREMENT_MIN && now[1] == INCREMENT_MAX {
            shuttleEvent := Some(Increment(-1, now[1]));
          } else if now[1] > previous[1] {
            shuttleEvent := Some(Increment(1, now[1]));
          } else if now[1] < previous[1] {
            shuttleEvent := Some(Increment(-1, now[1]));
          }
          previous[1] := now[1];
        }
      }

      buffers := buffers[1..];
    }

    /** The device's `data` handler: queue a copy of the delivered report,
        decode it against the previous one, and return the event. */
    method OnData(data: Report) returns (shuttleEvent: Option<Event>)
      requires Valid()
      modifies this, buffers[0]
      ensures Valid() && fresh(buffers[0])
      ensures Last() == data
      ensures shuttleEvent == Classify(old(Last()), data)
    {
      var report := new Byte[5](i requires 0 <= i < 5 => data[i]);
      buffers := buffers + [report];
      shuttleEvent := GetShuttleEvent();
    }
  }

  /** A fresh decoder given the same report twice: the first delivery is
      compared with the all-zero report, the second yields no event. */
  method DeliverTwice(data: Report) returns (first: Option<Event>, second: Option<Event>)
    ensures first == Classify(ZERO_REPORT, data)
    ensures second == None
  {
    var shuttle := new ShuttleXpress();
    first := shuttle.OnData(data);
    second := shuttle.OnData(data);
    SameReportTwice(data);
  }

  /** The button press and release sequence of a fresh decoder: button 1
      pressed, then released. */
  method PressAndReleaseButton1() returns (press: Option<Event>, release: Option<Event>)
    ensures press == Some(Button(1, true, BTN_1))
    ensures release == Some(Button(1, false, 0))
  {
    var shuttle := new ShuttleXpress();
    press := shuttle.OnData([0, 0, 0, BTN_1, 0]);
    release := shuttle.OnData(ZERO_REPORT);
    ButtonPressThenRelease(1);
  }
}
