/** The reassembler's established connections (src/reassembler.rs), updated in place: the DATA,
    FIN and RST branches of `handle_frame` for them, the half-close helpers and `finish_if_done`. */
module EgressTable {
  import opened Wire
  import opened Reassembler
  import T = Traffic
  import Reorder
  import R = Receiver

  class VirtConn {
    const rx: R.Conn
    var finReceived: bool
    var finSeq: u64
    var hc: nat
    var eof: bool

    constructor (maxBytes: nat)
      ensures fresh(rx) && fresh(rx.reorder) && rx.Valid() && rx.side.Reassembler?
      ensures Model() == Conn(Reorder.Fresh(maxBytes), [], false, 0, 0, false)
    {
      rx := new R.Conn(R.Reassembler, maxBytes);
      finReceived, finSeq, hc, eof := false, 0, 0, false;
    }

    ghost function Model(): Conn
      reads this, rx, rx.reorder
    {
      Conn(rx.reorder.Model(), rx.output, finReceived, finSeq, hc, eof)
    }

    method CloseWriteHalf()
      modifies this`hc
      ensures hc == if old(hc) == 0 && rx.reorder.expected >= finSeq then 2 else old(hc)
      ensures Model() == Reassembler.CloseWriteHalf(old(Model()))
    {
      if hc != 0 {
        return;
      }
      hc := 1;
      var complete := rx.reorder.IsCompleteThrough(finSeq);
      hc := if complete then 2 else 0;
    }

    method StartHalfClose(fin: u64)
      modifies this`finReceived, this`finSeq, this`hc
      ensures Model() == Reassembler.StartHalfClose(old(Model()), fin)
    {
      if finReceived {
        return;
      }
      finReceived := true;
      finSeq := fin;
      CloseWriteHalf();
    }
  }

  class Connections {
    const limit: nat
    var now: nat
    var conns: map<u32, VirtConn>
    var closed: map<u32, nat>
    var rsts: seq<u32>

    ghost function Repr(): set<object>
      reads this`conns, conns.Values
    {
      conns.Values + (set c | c in conns :: conns[c].rx) + (set c | c in conns :: conns[c].rx.reorder)
    }

    /** Every connection is sound and shares nothing with another. */
    ghost predicate Valid()
      reads this`conns, Repr()
    {
      && (forall c :: c in conns ==> conns[c].rx.Valid() && conns[c].rx.side.Reassembler?)
      && (forall c, d :: c in conns && d in conns && c != d ==>
            conns[c] != conns[d] && conns[c].rx != conns[d].rx && conns[c].rx.reorder != conns[d].rx.reorder)
    }

    ghost function Table(): map<u32, Conn>
      reads this`conns, Repr()
    {
      map c | c in conns :: conns[c].Model()
    }

    /** The connections' part of the reassembler's state. */
    ghost function Model(): State
      reads this, Repr()
    {
      State(now, limit, Table(), map[], 0, closed, map[], rsts)
    }

    method Teardown(cid: u32)
      requires Valid()
      modifies this`conns, this`closed
      ensures Valid()
      ensures Table() == old(Table()) - {cid} && closed == old(closed)[cid := now]
    {
      closed, conns := closed[cid := now], conns - {cid};
      assert conns.Keys == old(conns).Keys - {cid};
    }

    method SendRst(cid: u32)
      requires Valid()
      modifies this`rsts
      ensures Valid() && Table() == old(Table()) && rsts == old(rsts) + [cid]
    {
      rsts := rsts + [cid];
    }

    method Reset(cid: u32)
      requires Valid()
      modifies this`conns, this`closed, this`rsts
      ensures Valid()
      ensures Table() == old(Table()) - {cid} && closed == old(closed)[cid := now] && rsts == old(rsts) + [cid]
    {
      SendRst(cid);
      Teardown(cid);
    }

    method FinishIfDone(cid: u32)
      requires Valid() && cid in conns
      modifies this`conns, this`closed
      ensures Valid()
      ensures var c := old(Table()[cid]);
              && Table() == (if IsDone(c) then old(Table()) - {cid} else old(Table()))
              && closed == if IsDone(c) then old(closed)[cid := now] else old(closed)
    {
      var vc := conns[cid];
      if vc.finReceived && vc.eof && vc.hc == 2 {
        Teardown(cid);
      }
    }

    method Receive(cid: u32, n: u64, payload: Bytes, accepts: nat -> bool) returns (reset: bool, taken: bool)
      requires Valid() && cid in conns
      modifies conns[cid].rx, conns[cid].rx.reorder
      ensures Valid()
      ensures var c := old(Table()[cid]);
              var r := R.OnData(R.Reassembler, c.window, c.output, n, payload, accepts);
              && reset == r.reset && taken == Reorder.Pushed(c.window, n, payload).1.accepted
              && Table() == old(Table())[cid := c.(window := r.window, output := r.output)]
    {
      hide R.OnData, Reorder.Pushed;
      reset, taken := conns[cid].rx.OnFrame(n, payload, accepts);
    }

    /** The delivered frame may have filled the gap before a FIN. */
    method Recheck(cid: u32)
      requires Valid() && cid in conns
      modifies this`conns, this`closed, conns[cid]
      ensures Valid()
      ensures var c := Rechecked(old(Table()[cid]));
              && Table() == (if IsDone(c) then old(Table()) - {cid} else old(Table())[cid := c])
              && closed == if IsDone(c) then old(closed)[cid := now] else old(closed)
    {
      hide CloseWriteHalf;
      if conns[cid].finReceived {
        ghost var was := Table();
        SetThenRemove(was, cid, CloseWriteHalf(was[cid]));
        Close(cid);
        FinishIfDone(cid);
      }
    }

    method Close(cid: u32)
      requires Valid() && cid in conns
      modifies conns[cid]
      ensures Valid()
      ensures Table() == old(Table())[cid := CloseWriteHalf(old(Table()[cid]))]
    {
      hide CloseWriteHalf;
      conns[cid].CloseWriteHalf();
    }

    /** What follows the reception of a DATA frame. */
    method AfterReceive(cid: u32, reset: bool, taken: bool)
      requires Valid() && cid in conns
      modifies this`conns, this`closed, this`rsts, conns[cid]
      ensures Valid()
      ensures Model() == Settled(old(Model()), cid, reset, taken)
    {
      hide Rechecked, IsDone;
      if reset {
        Reset(cid);
      } else if taken {
        Recheck(cid);
      }
    }

    /** DATA for an established connection. */
    method HandleData(cid: u32, n: u64, payload: Bytes, accepts: nat -> bool)
      requires Valid() && cid in conns
      modifies this`conns, this`closed, this`rsts, Repr()
      ensures Valid()
      ensures Model() == DataOnConn(old(Model()), cid, n, payload, accepts)
    {
      hide R.OnData, Reorder.Pushed, Settled, DataOnConn;
      ghost var s := Model();
      var reset, taken := Receive(cid, n, payload, accepts);
      ghost var mid := Model();
      AfterReceive(cid, reset, taken);
      DataByParts(s, cid, n, payload, accepts, mid, Model());
    }

    method HalfClose(cid: u32, n: u64)
      requires Valid() && cid in conns
      modifies conns[cid]
      ensures Valid()
      ensures Table() == old(Table())[cid := StartHalfClose(old(Table()[cid]), n)]
    {
      hide StartHalfClose;
      conns[cid].StartHalfClose(n);
    }

    /** FIN for an established connection. */
    method HandleFin(cid: u32, n: u64)
      requires Valid() && cid in conns
      modifies this`conns, this`closed, Repr()
      ensures Valid()
      ensures Model() == FinStep(old(Model()), cid, n)
    {
      hide IsDone, StartHalfClose, FinStep;
      FinOnConn(Model(), cid, n);
      ghost var was := Table();
      SetThenRemove(was, cid, StartHalfClose(was[cid], n));
      HalfClose(cid, n);
      FinishIfDone(cid);
    }

    /** Whatever frame arrives for an established connection; a second SYN is ignored. */
    method Handle(f: T.Packet, accepts: nat -> bool)
      requires Valid() && f.cid in conns
      modifies this`conns, this`closed, this`rsts, Repr()
      ensures Valid()
      ensures Model() == match f
                         case Data(cid, n, payload) => DataOnConn(old(Model()), cid, n, payload, accepts)
                         case Fin(cid, n) => FinStep(old(Model()), cid, n)
                         case Rst(cid) => RstStep(old(Model()), cid)
                         case Syn(cid, valid) => SynBegin(old(Model()), cid, valid)
    {
      hide DataOnConn, FinStep, RstStep;
      match f {
        case Data(cid, n, payload) => HandleData(cid, n, payload, accepts);
        case Fin(cid, n) => HandleFin(cid, n);
        case Rst(cid) => HandleRst(cid);
        case Syn(_, _) =>
      }
    }

    /** RST for an established connection. */
    method HandleRst(cid: u32)
      requires Valid() && cid in conns
      modifies this`conns, this`closed
      ensures Valid()
      ensures Model() == RstStep(old(Model()), cid)
    {
      Teardown(cid);
    }
  }

  /** What a DATA frame that was taken in makes of its connection. */
  function Rechecked(c: Conn): Conn {
    if c.finReceived then CloseWriteHalf(c) else c
  }

  /** What follows the reception of a DATA frame, on the tables. */
  function Settled(s: State, cid: u32, reset: bool, taken: bool): State
    requires cid in s.conns
  {
    var c := Rechecked(s.conns[cid]);
    if reset then s.(conns := s.conns - {cid}, closed := s.closed[cid := s.now], rsts := s.rsts + [cid])
    else if taken && IsDone(c) then s.(conns := s.conns - {cid}, closed := s.closed[cid := s.now])
    else if taken then s.(conns := s.conns[cid := c])
    else s
  }

  lemma SetThenRemove<V>(m: map<u32, V>, k: u32, v: V)
    ensures m[k := v] - {k} == m - {k}
    ensures forall w: V {:trigger m[k := w]} :: m[k := v][k := w] == m[k := w]
  {
  }

  // The DATA branch, case by case.

  lemma DataResets(s: State, cid: u32, n: u64, payload: Bytes, accepts: nat -> bool)
    requires cid in s.conns
    requires R.OnData(R.Reassembler, s.conns[cid].window, s.conns[cid].output, n, payload, accepts).reset
    ensures DataOnConn(s, cid, n, payload, accepts)
         == s.(conns := s.conns - {cid}, closed := s.closed[cid := s.now], rsts := s.rsts + [cid])
  {
    hide R.Offer, CloseWriteHalf, Reorder.Pushed;
    R.RefusedUnchanged(s.conns[cid].window, n, payload);
  }

  lemma DataRefused(s: State, cid: u32, n: u64, payload: Bytes, accepts: nat -> bool)
    requires cid in s.conns
    requires !Reorder.Pushed(s.conns[cid].window, n, payload).1.accepted
    requires !R.OnData(R.Reassembler, s.conns[cid].window, s.conns[cid].output, n, payload, accepts).reset
    ensures var c := s.conns[cid];
            var r := R.OnData(R.Reassembler, c.window, c.output, n, payload, accepts);
            var d := c.(window := r.window, output := r.output);
            DataOnConn(s, cid, n, payload, accepts) == s.(conns := s.conns[cid := d])
  {
    hide R.Offer, CloseWriteHalf, Reorder.Pushed;
    assert s.conns == s.conns[cid := s.conns[cid]];
  }

  lemma DataTaken(s: State, cid: u32, n: u64, payload: Bytes, accepts: nat -> bool)
    requires cid in s.conns && Reorder.Pushed(s.conns[cid].window, n, payload).1.accepted
    requires !R.OnData(R.Reassembler, s.conns[cid].window, s.conns[cid].output, n, payload, accepts).reset
    ensures var c := s.conns[cid];
            var r := R.OnData(R.Reassembler, c.window, c.output, n, payload, accepts);
            var e := Rechecked(c.(window := r.window, output := r.output));
            DataOnConn(s, cid, n, payload, accepts)
              == s.(conns := if IsDone(e) then s.conns - {cid} else s.conns[cid := e],
                    closed := if IsDone(e) then s.closed[cid := s.now] else s.closed)
  {
    hide R.Offer, CloseWriteHalf, Reorder.Pushed;
  }

  /** `mid` is the state after the reception, `s'` the one after what followed. */
  lemma DataByParts(s: State, cid: u32, n: u64, payload: Bytes, accepts: nat -> bool, mid: State, s': State)
    requires cid in s.conns && cid in mid.conns
    requires var c := s.conns[cid];
             var r := R.OnData(R.Reassembler, c.window, c.output, n, payload, accepts);
             var taken := Reorder.Pushed(c.window, n, payload).1.accepted;
             && mid == s.(conns := s.conns[cid := c.(window := r.window, output := r.output)])
             && s' == Settled(mid, cid, r.reset, taken)
    ensures s' == DataOnConn(s, cid, n, payload, accepts)
  {
    hide R.OnData, Reorder.Pushed, Rechecked, IsDone, DataOnConn;
    var c := s.conns[cid];
    SetThenRemove(s.conns, cid, mid.conns[cid]);
    if R.OnData(R.Reassembler, c.window, c.output, n, payload, accepts).reset {
      DataResets(s, cid, n, payload, accepts);
    } else if Reorder.Pushed(c.window, n, payload).1.accepted {
      DataTaken(s, cid, n, payload, accepts);
    } else {
      DataRefused(s, cid, n, payload, accepts);
    }
  }

  lemma FinOnConn(s: State, cid: u32, n: u64)
    requires cid in s.conns
    ensures var c := StartHalfClose(s.conns[cid], n);
            FinStep(s, cid, n)
              == s.(conns := if IsDone(c) then s.conns - {cid} else s.conns[cid := c],
                    closed := if IsDone(c) then s.closed[cid := s.now] else s.closed)
  {
  }
}
