/** The splitter's side of the connection table (src/splitter.rs, `handle_inbound_frame` and
    `reset_conn`), updated in place. */
module ClientTable {
  import opened Wire
  import opened Traffic
  import R = Receiver
  import Reorder
  import E = Exchange
  import H = Handlers

  class VirtConn {
    const rx: R.Conn
    var finReceived: bool
    var finSeq: u64

    constructor (maxBytes: nat)
      ensures fresh(rx) && fresh(rx.reorder) && rx.Valid() && rx.side.Splitter?
      ensures Model() == E.Client(Reorder.Fresh(maxBytes), [], false, 0)
    {
      rx := new R.Conn(R.Splitter, maxBytes);
      finReceived, finSeq := false, 0;
    }

    ghost function Model(): E.Client
      reads this, rx, rx.reorder
    {
      E.Client(rx.reorder.Model(), rx.output, finReceived, finSeq)
    }
  }

  class Clients {
    const limit: nat
    var conns: map<u32, VirtConn>
    var timeWait: set<u32>
    var loops: multiset<u32>

    ghost function Repr(): set<object>
      reads this`conns, conns.Values
    {
      conns.Values + (set c | c in conns :: conns[c].rx) + (set c | c in conns :: conns[c].rx.reorder)
    }

    /** Every connection is sound and shares nothing with another. */
    ghost predicate Valid()
      reads this`conns, Repr()
    {
      && (forall c :: c in conns ==> conns[c].rx.Valid() && conns[c].rx.side.Splitter?)
      && (forall c, d :: c in conns && d in conns && c != d ==>
            conns[c] != conns[d] && conns[c].rx != conns[d].rx && conns[c].rx.reorder != conns[d].rx.reorder)
    }

    ghost function Table(): map<u32, E.Client>
      reads this`conns, Repr()
    {
      map c | c in conns :: conns[c].Model()
    }

    ghost function Model(): E.Splitter
      reads this, Repr()
    {
      E.Splitter(limit, Table(), timeWait, loops)
    }

    /** Tombstone first, then removal; the caller sends the RST. */
    method ResetConn(cid: u32) returns (rst: Packet)
      requires Valid()
      modifies this`conns, this`timeWait
      ensures Valid() && rst == Rst(cid)
      ensures Table() == old(Table()) - {cid} && timeWait == old(timeWait) + {cid}
    {
      timeWait, conns := timeWait + {cid}, conns - {cid};
      rst := Rst(cid);
      assert conns.Keys == old(conns).Keys - {cid};
    }

    /** DATA for an established connection, under its reorder lock. */
    method Receive(cid: u32, n: u64, payload: Bytes, accepts: nat -> bool) returns (reset: bool)
      requires Valid() && cid in conns
      modifies conns[cid].rx, conns[cid].rx.reorder
      ensures Valid()
      ensures var c := old(Table()[cid]);
              var r := R.OnData(R.Splitter, c.window, c.output, n, payload, accepts);
              && reset == r.reset
              && Table() == old(Table())[cid := c.(window := r.window, output := r.output)]
    {
      hide R.OnData;
      var taken;
      reset, taken := conns[cid].rx.OnFrame(n, payload, accepts);
    }

    method HandleFin(cid: u32, n: u64)
      requires Valid()
      modifies if cid in conns then {conns[cid]} else {}
      ensures Valid()
      ensures var was := old(Table());
              Table() == if cid in was then was[cid := was[cid].(finReceived := true, finSeq := n)] else was
    {
      if cid in conns {
        conns[cid].finReceived := true;
        conns[cid].finSeq := n;
      }
    }

    method HandleInbound(f: Packet, accepts: nat -> bool) returns (sent: seq<Packet>)
      requires Valid()
      modifies this`conns, this`timeWait, Repr()
      ensures Valid()
      ensures sent == if E.React(old(Model()), f, accepts).1 then [Rst(f.cid)] else []
      ensures Model() == E.React(old(Model()), f, accepts).0
      // DATA that breaks its client, DATA for an unknown one and every RST are answered with an RST
      ensures sent == [Rst(f.cid)] <==>
                || f.Rst?
                || (f.Data? && f.cid !in old(Table()))
                || (f.Data? && f.cid in old(Table()) && H.Breaks(old(Table())[f.cid].window, f.n, f.payload, accepts))
      ensures sent == [] || sent == [Rst(f.cid)]
      ensures sent != [] ==> f.cid !in conns && (f.cid in old(conns) || f.Rst? ==> f.cid in timeWait)
      ensures sent == [] && f.cid in old(conns) ==> f.cid in conns
      ensures f.Fin? && f.cid in conns ==> Table()[f.cid].finReceived && Table()[f.cid].finSeq == f.n
    {
      hide R.OnData, H.Breaks;
      if f.Data? && f.cid in conns {
        ghost var c := Table()[f.cid];
        H.BreaksIsReset(R.Splitter, c.window, c.output, f.n, f.payload, accepts);
      }
      sent := [];
      match f {
        case Data(cid, n, payload) =>
          if cid in conns {
            var reset := Receive(cid, n, payload, accepts);
            if reset {
              var rst := ResetConn(cid);
              sent := [rst];
            }
          } else {
            sent := [Rst(cid)];
          }
        case Fin(cid, n) => HandleFin(cid, n);
        case Rst(cid) =>
          var rst := ResetConn(cid);
          sent := [rst];
        case Syn(_, _) =>
      }
    }
  }
}
