/** The two sides joined by their links.  The splitter answers an RST with an RST, the reassembler
    answers one with nothing; every frame, connection, queue, handshake and task carries a
    potential that pays for all the frames it can still cause, so the exchange runs dry. */
module Exchange {
  import opened Wire
  import opened Traffic
  import Reorder
  import R = Receiver
  import Re = Reassembler
  import opened ReassemblerCost

  /** A client's connection at the splitter. */
  datatype Client = Client(window: Reorder.Window, output: seq<Bytes>, finReceived: bool, finSeq: u64)

  datatype Splitter = Splitter(
    limit: nat,
    conns: map<u32, Client>,
    timeWait: set<u32>,
    loops: multiset<u32>)               // client read loops that have not ended

  /** `opens`, `chunks` and `replies` are the input still to come: client connections, chunks read
      from clients, chunks read from targets. */
  datatype World = World(
    re: Re.State,
    sp: Splitter,
    toRe: seq<Link>,
    toSp: seq<Link>,
    lostSp: seq<Packet>,                // splitter frames a dead link never wrote
    lostRe: seq<Packet>,
    leftover: multiset<u32>,            // egress readers whose connection was torn down under them
    opens: nat,
    chunks: nat,
    replies: nat,
    sent: nat)                          // calls of `TunnelPool::send` so far, both sides

  datatype Ending = WithFin(n: u64) | WithRst | WithNothing

  datatype Step =
    | ReHandles(i: nat, e: Re.Event, route: nat -> nat)
    | ReActs(e: Re.Event, fin: u64, route: nat -> nat)
    | SpHandles(i: nat, accepts: nat -> bool, at: nat)
    | LeftoverEnds(cid: u32, resets: bool, at: nat)
    | ClientOpens(cid: u32, valid: bool, at: nat)
    | ClientSends(cid: u32, n: u64, payload: Bytes, at: nat)
    | ClientEnds(cid: u32, how: Ending, at: nat)
    | ClientRemoved(cid: u32)
    | ClientSwept(cid: u32, at: nat)
    | TimeWaitExpires(cid: u32)
    | TargetSends(cid: u32, n: u64, payload: Bytes, at: nat)
    | SpLinkDies(i: nat, written: nat, failed: nat)
    | ReLinkDies(i: nat, written: nat, failed: nat)
    | SpRecovers(at: nat)
    | ReRecovers(at: nat)
    | LostOnWay(towardRe: bool, i: nat)

  // ----- the splitter

  function ToRe(x: World, f: Packet, at: nat): World {
    x.(toRe := Post(x.toRe, f, at), sent := x.sent + 1)
  }

  function ToSp(x: World, f: Packet, at: nat): World {
    x.(toSp := Post(x.toSp, f, at), sent := x.sent + 1)
  }

  /** Out of the connection map and into TIME_WAIT. */
  function Left(s: Splitter, cid: u32): Splitter {
    s.(conns := s.conns - {cid}, timeWait := s.timeWait + {cid})
  }

  function Leave(x: World, cid: u32): World {
    x.(sp := Left(x.sp, cid))
  }

  function ResetConn(x: World, cid: u32, at: nat): World {
    ToRe(Leave(x, cid), Rst(cid), at)
  }

  /** The splitter's answer to a frame: its new state, and whether it sends an RST. */
  ghost function React(s: Splitter, f: Packet, accepts: nat -> bool): (Splitter, bool) {
    match f
    case Data(cid, n, payload) =>
      if cid in s.conns then
        var c := s.conns[cid];
        var r := R.OnData(R.Splitter, c.window, c.output, n, payload, accepts);
        var s' := s.(conns := s.conns[cid := c.(window := r.window, output := r.output)]);
        if r.reset then (Left(s', cid), true) else (s', false)
      else (s, true)
    case Fin(cid, n) =>
      if cid in s.conns
      then (s.(conns := s.conns[cid := s.conns[cid].(finReceived := true, finSeq := n)]), false)
      else (s, false)
    case Rst(cid) => (Left(s, cid), true)
    case Syn(_, _) => (s, false)
  }

  ghost function Inbound(x: World, f: Packet, accepts: nat -> bool, at: nat): World {
    var (sp', rst) := React(x.sp, f, accepts);
    if rst then ToRe(x.(sp := sp'), Rst(f.cid), at) else x.(sp := sp')
  }

  function Open(x: World, cid: u32, valid: bool, at: nat): World
    requires x.opens > 0
  {
    var y := ToRe(x.(opens := x.opens - 1), Syn(cid, valid), at);
    if at < |x.toRe| && x.toRe[at].alive
    then y.(sp := y.sp.(conns := y.sp.conns[cid := Client(Reorder.Fresh(y.sp.limit), [], false, 0)],
                        loops := y.sp.loops + multiset{cid}))
    else y
  }

  function End(x: World, cid: u32, how: Ending, at: nat): World {
    var y := x.(sp := x.sp.(loops := x.sp.loops - multiset{cid}));
    match how
    case WithFin(n) => ToRe(y, Fin(cid, n), at)
    case WithRst => ToRe(y, Rst(cid), at)
    case WithNothing => y
  }

  /** Dead-link recovery: control frames are sent again, lost DATA resets its connection. */
  function SpRecover(x: World, f: Packet, at: nat): World {
    if !f.Data? then ToRe(x, f, at) else if f.cid in x.sp.conns then ResetConn(x, f.cid, at) else x
  }

  function ReRecover(x: World, f: Packet, at: nat): World {
    ToSp(x, if f.Data? then Rst(f.cid) else f, at)
  }

  // ----- the reassembler

  predicate Carries(e: Re.Event, f: Packet) {
    match f
    case Syn(cid, valid) => e == Re.OnSyn(cid, valid)
    case Data(cid, n, payload) => e.OnData? && e.cid == cid && e.n == n && e.payload == payload
    case Fin(cid, n) => e == Re.OnFin(cid, n)
    case Rst(cid) => e == Re.OnRst(cid)
  }

  predicate IsFrame(e: Re.Event) {
    e.OnSyn? || e.OnData? || e.OnFin? || e.OnRst?
  }

  function Resets(cids: seq<u32>): seq<Packet> {
    seq(|cids|, i requires 0 <= i < |cids| => Rst(cids[i]))
  }

  /** What the reassembler sends in a step. */
  function Sends(s: Re.State, e: Re.Event, fin: u64, s': Re.State): seq<Packet> {
    (if e.EgressEof? && e.finSent then [Fin(e.cid, fin)] else [])
      + if |s.rsts| <= |s'.rsts| then Resets(s'.rsts[|s.rsts|..]) else []
  }

  ghost predicate ReStep(x: World, e: Re.Event, fin: u64, route: nat -> nat, x': World) {
    && Re.Next(x.re, e, x'.re)
    && var out := Sends(x.re, e, fin, x'.re);
       x' == x.(re := x'.re, toSp := PostAll(x.toSp, out, route), sent := x.sent + |out|,
                leftover := x.leftover + if Abandons(x.re, e, x'.re) then multiset{e.cid} else multiset{})
  }

  // ----- steps

  ghost predicate Next(x: World, st: Step, x': World) {
    match st
    case ReHandles(i, e, route) =>
      && i < |x.toRe| && x.toRe[i].frames != [] && Carries(e, x.toRe[i].frames[0])
      && ReStep(x.(toRe := Taken(x.toRe, i)), e, 0, route, x')
    case ReActs(e, fin, route) => !IsFrame(e) && ReStep(x, e, fin, route, x')
    case SpHandles(i, accepts, at) =>
      && i < |x.toSp| && x.toSp[i].frames != []
      && x' == Inbound(x.(toSp := Taken(x.toSp, i)), x.toSp[i].frames[0], accepts, at)
    case LeftoverEnds(cid, resets, at) =>
      && cid in x.leftover
      && var y := x.(leftover := x.leftover - multiset{cid});
         x' == if resets then ToSp(y, Rst(cid), at) else y
    case ClientOpens(cid, valid, at) =>
      x.opens > 0 && cid !in x.sp.conns && cid !in x.sp.timeWait && x' == Open(x, cid, valid, at)
    case ClientSends(cid, n, payload, at) =>
      x.chunks > 0 && cid in x.sp.loops && x' == ToRe(x.(chunks := x.chunks - 1), Data(cid, n, payload), at)
    case ClientEnds(cid, how, at) => cid in x.sp.loops && x' == End(x, cid, how, at)
    case ClientRemoved(cid) => cid in x.sp.conns && x' == Leave(x, cid)
    case ClientSwept(cid, at) => cid in x.sp.conns && x' == ResetConn(x, cid, at)
    case TimeWaitExpires(cid) => x' == x.(sp := x.sp.(timeWait := x.sp.timeWait - {cid}))
    case TargetSends(cid, n, payload, at) =>
      x.replies > 0 && x' == ToSp(x.(replies := x.replies - 1), Data(cid, n, payload), at)
    case SpLinkDies(i, written, failed) =>
      && i < |x.toRe| && x.toRe[i].alive && written <= failed <= written + 1 && failed <= |x.toRe[i].frames|
      && x' == x.(toRe := Cut(x.toRe, i, written), lostSp := x.lostSp + x.toRe[i].frames[failed..])
    case ReLinkDies(i, written, failed) =>
      && i < |x.toSp| && x.toSp[i].alive && written <= failed <= written + 1 && failed <= |x.toSp[i].frames|
      && x' == x.(toSp := Cut(x.toSp, i, written), lostRe := x.lostRe + x.toSp[i].frames[failed..])
    case SpRecovers(at) =>
      x.lostSp != [] && x' == SpRecover(x.(lostSp := x.lostSp[1..]), x.lostSp[0], at)
    case ReRecovers(at) =>
      x.lostRe != [] && x' == ReRecover(x.(lostRe := x.lostRe[1..]), x.lostRe[0], at)
    case LostOnWay(towardRe, i) =>
      var links := if towardRe then x.toRe else x.toSp;
      && i < |links| && links[i].frames != []
      && x' == if towardRe then x.(toRe := Taken(links, i)) else x.(toSp := Taken(links, i))
  }

  /** Steps in which no frame is taken, sent, lost or recovered and no loop ends. */
  predicate Quiet(st: Step) {
    || st.TimeWaitExpires?
    || (st.ReActs? && Silent(st.e))
  }

  ghost predicate IsRun(worlds: seq<World>, steps: seq<Step>) {
    && |worlds| == |steps| + 1
    && forall i {:trigger steps[i]} :: 0 <= i < |steps| ==> Next(worlds[i], steps[i], worlds[i + 1])
  }

  // ----- potentials

  function CostToRe(f: Packet): nat {
    match f
    case Syn(_, _) => 11
    case Data(_, _, _) => 4
    case Fin(_, _) => 4
    case Rst(_) => 1
  }

  function CostToSp(f: Packet): nat {
    match f
    case Syn(_, _) => 1
    case Data(_, _, _) => 2
    case Fin(_, _) => 1
    case Rst(_) => 2
  }

  function SpCost(s: Splitter): nat {
    2 * |s.conns| + 5 * |s.loops|
  }

  /** Every frame either side can still be made to send, not counting repeats after link deaths. */
  ghost function Work(x: World): nat {
    ReCost(x.re) + SpCost(x.sp) + Load(x.toRe, CostToRe) + Load(x.toSp, CostToSp)
      + Weigh(x.lostSp, CostToRe) + Weigh(x.lostRe, CostToSp)
      + 3 * |x.leftover| + 19 * x.opens + 5 * x.chunks + 3 * x.replies
  }

  function LiveLinks(x: World): nat {
    Alive(x.toRe) + Alive(x.toSp)
  }

  function Amortised(work: nat, links: nat, lost: nat): nat {
    work * (links + 2) + lost + links
  }

  /** Each live link that dies can cause every frame to be sent once more. */
  ghost function Potential(x: World): nat {
    Amortised(Work(x), LiveLinks(x), |x.lostSp| + |x.lostRe|)
  }
}
