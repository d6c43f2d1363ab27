/** The writer task of one tunnel link (src/tunnel.rs, `drain_frames`): frames leave its channel
    in order and are either written, caught by a failing write, or reported as lost. */
module DrainTask {
  import opened Wire

  /** How the write of one encoded frame ends. */
  datatype WriteEnd = Written | WriteFails | StopDuringWrite

  /** What the writer's select sees next. */
  datatype Wake = StopNotified | ChannelClosed | Received(end: WriteEnd)

  /** One turn of the loop: frames that senders queue beforehand, then the wakeup. */
  datatype Turn = Turn(arrivals: seq<Frame>, wake: Wake)

  datatype Cause = Running | Stopped | Closed | EncodeFailed | WriteFailed

  /** A frame too large to encode ends the writer, as does a failed write or a stop; one whose write
      succeeds does not. */
  function CauseOf(f: Frame, end: WriteEnd): Cause {
    if |f.payload| > MAX_PAYLOAD then EncodeFailed
    else if end.Written? then Running
    else if end.WriteFails? then WriteFailed
    else Stopped
  }

  class Drain {
    var rx: seq<Frame>          // the channel
    var wire: seq<Frame>        // frames written to the tunnel
    var lost: seq<Frame>        // reported for recovery
    ghost var failing: seq<Frame>   // the frame whose write failed, if any
    ghost var arrived: seq<Frame>   // everything senders ever queued

    constructor ()
      ensures Conserved() && rx == [] && arrived == []
    {
      rx, wire, lost, failing, arrived := [], [], [], [], [];
    }

    /** Frames come out in the order they went in, and none is in two places. */
    ghost predicate Conserved()
      reads this
    {
      && arrived == wire + failing + lost + rx
      && |failing| <= 1
    }

    /** Run the writer against any sequence of turns, its final sweep against any arrivals that
        still slip in while it empties the channel, and the shutdown that follows, during which the
        channel stays open, against `tail`.  Whatever was queued is written, failing or reported
        exactly when nothing comes after the sweep. */
    method Run(turns: seq<Turn>, late: seq<seq<Frame>>, tail: seq<Frame>) returns (cause: Cause)
      requires Conserved() && failing == [] && lost == []
      modifies this
      ensures Conserved()
      ensures old(arrived) <= arrived && old(wire) <= wire
      ensures |failing| == 1 <==> cause.WriteFailed?
      ensures cause.Running? ==> lost == []
      ensures !cause.Running? ==> rx == tail && arrived == wire + failing + lost + tail
      ensures !cause.Running? ==> (arrived == wire + failing + lost <==> tail == [])
      ensures cause.EncodeFailed? ==> lost != [] && |lost[0].payload| > MAX_PAYLOAD
      ensures forall f :: f in wire[|old(wire)|..] ==> |f.payload| <= MAX_PAYLOAD
    {
      cause := Running;
      var i := 0;
      while i < |turns| && cause.Running?
        invariant 0 <= i <= |turns|
        invariant Conserved() && old(arrived) <= arrived && old(wire) <= wire
        invariant |failing| == 1 <==> cause.WriteFailed?
        invariant cause.Running? || cause.Stopped? || cause.Closed? || cause.WriteFailed? || cause.EncodeFailed?
        invariant cause.Running? || cause.WriteFailed? || cause.Closed? ==> lost == []
        invariant cause.EncodeFailed? ==> lost != [] && |lost[0].payload| > MAX_PAYLOAD
        invariant cause.EncodeFailed? || cause.Stopped? ==> |lost| <= 1
        invariant forall f :: f in wire[|old(wire)|..] ==> |f.payload| <= MAX_PAYLOAD
      {
        cause := Take(turns[i]);
        i := i + 1;
      }
      if !cause.Running? {
        Sweep(late);
        Arrive(tail);
        assert [] + tail == tail;
        assert tail == [] ==> wire + failing + lost + tail == wire + failing + lost;
        assert |wire + failing + lost + tail| == |wire + failing + lost| + |tail|;
      }
    }

    /** One turn of the select loop. */
    method Take(turn: Turn) returns (cause: Cause)
      requires Conserved() && failing == [] && lost == []
      modifies this
      ensures Conserved() && arrived == old(arrived) + turn.arrivals
      ensures |failing| == 1 <==> cause.WriteFailed?
      ensures cause.Running? || cause.WriteFailed? || cause.Closed? ==> lost == []
      ensures cause.EncodeFailed? ==> |lost| == 1 && |lost[0].payload| > MAX_PAYLOAD
      ensures cause.Stopped? ==> |lost| <= 1
      ensures wire == old(wire) || (exists f :: wire == old(wire) + [f] && |f.payload| <= MAX_PAYLOAD)
      // what becomes of the frame at the head of the channel
      ensures var queued := old(rx) + turn.arrivals;
              turn.wake.Received? && queued != [] ==>
                && rx == queued[1..]
                && cause == CauseOf(queued[0], turn.wake.end)
                && wire == old(wire) + (if cause.Running? then [queued[0]] else [])
                && failing == (if cause.WriteFailed? then [queued[0]] else [])
                && lost == (if cause.EncodeFailed? || cause.Stopped? then [queued[0]] else [])
      ensures turn.wake.StopNotified? ==> cause.Stopped? && rx == old(rx) + turn.arrivals && wire == old(wire)
    {
      Arrive(turn.arrivals);
      match turn.wake {
        case StopNotified =>
          return Stopped;
        case ChannelClosed =>
          return if rx == [] then Closed else Running;
        case Received(end) =>
          if rx == [] {
            return Running;
          }
          var frame := rx[0];
          assert rx == [frame] + rx[1..];
          rx := rx[1..];
          if |frame.payload| > MAX_PAYLOAD {
            lost := lost + [frame];
            return EncodeFailed;
          }
          match end {
            case StopDuringWrite =>
              lost := lost + [frame];
              return Stopped;
            case Written =>
              wire := wire + [frame];
              return Running;
            case WriteFails =>
              failing := [frame];
              return WriteFailed;
          }
      }
    }

    /** Report whatever is still queued, including what arrives meanwhile. */
    method Sweep(late: seq<seq<Frame>>)
      requires Conserved()
      modifies this`rx, this`lost, this`arrived
      ensures Conserved() && rx == []
      ensures old(lost) <= lost && old(arrived) <= arrived
    {
      var i := 0;
      while true
        invariant 0 <= i <= |late|
        invariant Conserved() && old(lost) <= lost && old(arrived) <= arrived
        decreases |late| - i, |rx|
      {
        if i < |late| {
          Arrive(late[i]);
          i := i + 1;
        }
        if rx == [] {
          return;
        }
        Report();
      }
    }

    method Arrive(fs: seq<Frame>)
      requires Conserved()
      modifies this`rx, this`arrived
      ensures Conserved() && rx == old(rx) + fs && arrived == old(arrived) + fs
    {
      rx, arrived := rx + fs, arrived + fs;
      assert arrived == wire + failing + lost + rx;
    }

    method Report()
      requires Conserved() && rx != []
      modifies this`rx, this`lost
      ensures Conserved() && lost == old(lost) + [old(rx)[0]] && rx == old(rx)[1..]
    {
      assert rx == [rx[0]] + rx[1..];
      lost := lost + [rx[0]];
      rx := rx[1..];
    }
  }
}
