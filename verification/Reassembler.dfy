/** The reassembler's connection table (src/reassembler.rs): established connections, frames
    queued ahead of their SYN, tombstones, SYN handshakes in flight and the global byte budget.
    Every frame handler is one step; a SYN is two, because the egress connect in its middle is
    where other frames get in.  TCP connections only. */
module Reassembler {
  import opened Wire
  import opened Reorder
  import R = Receiver

  const MAX_PENDING_FRAMES_PER_CID := 256
  const PENDING_TTL := 30
  const CLOSED_TTL := 60
  const CONNECT_TIMEOUT := 10

  datatype Msg = Data(s: u64, payload: Bytes) | Fin(s: u64)

  /** An established connection: its reorder window, what its egress channel has accepted, and
      its half-close flags. */
  datatype Conn = Conn(window: Window, output: seq<Bytes>, finReceived: bool, finSeq: u64, hc: nat, eof: bool)

  /** Frames that arrived before the SYN handler finished. */
  datatype Entry = Entry(frames: seq<Msg>, since: nat, bytes: nat, cancelled: bool, hasCancel: bool)

  datatype Handshake = Handshake(start: nat, notified: bool)

  datatype State = State(
    now: nat,
    limit: nat,                          // reorder_window_bytes
    conns: map<u32, Conn>,
    pending: map<u32, Entry>,
    pendingBytes: int,
    closed: map<u32, nat>,               // tombstones, with their times
    handshaking: map<u32, Handshake>,
    rsts: seq<u32>)                      // resets sent to the splitter, oldest first

  function EntryBytes(e: Entry): nat {
    e.bytes
  }

  function MsgBytes(m: Msg): nat {
    match m
    case Data(_, payload) => |payload|
    case Fin(_) => 0
  }

  function DataBytes(frames: seq<Msg>): nat {
    if frames == [] then 0 else DataBytes(frames[..|frames| - 1]) + MsgBytes(frames[|frames| - 1])
  }

  // ----- building blocks

  function Tombstone(s: State, cid: u32): State {
    s.(closed := s.closed[cid := s.now])
  }

  function SendRst(s: State, cid: u32): State {
    s.(rsts := s.rsts + [cid])
  }

  /** Every way out of `conns`. */
  function Teardown(s: State, cid: u32): State {
    Tombstone(s.(conns := s.conns - {cid}), cid)
  }

  function Reset(s: State, cid: u32): State {
    SendRst(Teardown(s, cid), cid)
  }

  function RemovePending(s: State, cid: u32): State {
    if cid in s.pending then s.(pending := s.pending - {cid}, pendingBytes := s.pendingBytes - s.pending[cid].bytes)
    else s
  }

  /** Wake the SYN handler whose Notify the entry of `cid` carries. */
  function NotifyHandshake(s: State, cid: u32): State {
    if cid in s.pending && s.pending[cid].hasCancel && cid in s.handshaking
    then s.(handshaking := s.handshaking[cid := s.handshaking[cid].(notified := true)])
    else s
  }

  function MarkCancelled(s: State, cid: u32): State {
    if cid in s.pending then NotifyHandshake(s, cid).(pending := s.pending[cid := s.pending[cid].(cancelled := true)])
    else s
  }

  function FailPending(s: State, cid: u32): State {
    SendRst(Tombstone(MarkCancelled(s, cid), cid), cid)
  }

  /** Drop a queued entry for good: eviction and the stale sweep. */
  function Evict(s: State, cid: u32): State {
    SendRst(Tombstone(RemovePending(NotifyHandshake(s, cid), cid), cid), cid)
  }

  function EndHandshake(s: State, cid: u32): State {
    RemovePending(s, cid).(handshaking := s.handshaking - {cid})
  }

  // ----- the byte budget

  predicate Fits(s: State, need: nat) {
    s.pendingBytes + need <= MAX_PENDING_BYTES
  }

  ghost predicate Candidate(s: State, exclude: set<u32>, k: u32) {
    k in s.pending && k !in exclude
  }

  ghost predicate NoCandidate(s: State, exclude: set<u32>) {
    forall k :: !Candidate(s, exclude, k)
  }

  ghost predicate Oldest(s: State, exclude: set<u32>, k: u32) {
    && Candidate(s, exclude, k)
    && forall j :: Candidate(s, exclude, j) ==> s.pending[k].since <= s.pending[j].since
  }

  /** `ks` is a run of the reservation loop: while the frame does not fit and some entry may go,
      the oldest one goes. */
  ghost predicate EvictionRun(s: State, exclude: set<u32>, need: nat, ks: seq<u32>)
    decreases |ks|
  {
    if Fits(s, need) || NoCandidate(s, exclude) then ks == []
    else ks != [] && Oldest(s, exclude, ks[0]) && EvictionRun(Evict(s, ks[0]), exclude, need, ks[1..])
  }

  function EvictAll(s: State, ks: seq<u32>): State
    decreases |ks|
  {
    if ks == [] then s else EvictAll(Evict(s, ks[0]), ks[1..])
  }

  function Enqueue(s: State, cid: u32, m: Msg): State
    requires cid in s.pending
  {
    var e := s.pending[cid];
    s.(pending := s.pending[cid := e.(frames := e.frames + [m], bytes := e.bytes + MsgBytes(m))],
       pendingBytes := s.pendingBytes + MsgBytes(m))
  }

  function NewEntry(s: State, cid: u32): State {
    s.(pending := s.pending[cid := Entry([], s.now, 0, false, false)])
  }

  // ----- half-close

  function CloseWriteHalf(c: Conn): Conn {
    if c.hc == 0 && c.window.IsCompleteThrough(c.finSeq) then c.(hc := 2) else c
  }

  function StartHalfClose(c: Conn, fin: u64): Conn {
    if c.finReceived then c else CloseWriteHalf(c.(finReceived := true, finSeq := fin))
  }

  predicate IsDone(c: Conn) {
    c.finReceived && c.eof && c.hc == 2
  }

  function FinishIfDone(s: State, cid: u32, c: Conn): State {
    if IsDone(c) then Teardown(s, cid) else s.(conns := s.conns[cid := c])
  }

  // ----- DATA

  ghost function DataOnConn(s: State, cid: u32, n: u64, payload: Bytes, accepts: nat -> bool): State
    requires cid in s.conns
  {
    var c := s.conns[cid];
    var (w, r) := Pushed(c.window, n, payload);
    if !r.accepted then (if r.overflow then Reset(s, cid) else s)
    else
      var o := R.Offer(R.Reassembler, r.ready, 0, accepts);
      if o.failed then Reset(s, cid)
      else
        var c' := c.(window := w, output := c.output + o.accepted);
        if c'.finReceived then FinishIfDone(s, cid, CloseWriteHalf(c')) else s.(conns := s.conns[cid := c'])
  }

  /** Place a DATA frame in a queue; `queued` says whether its entry existed beforehand. */
  function Placed(s: State, cid: u32, m: Msg, queued: bool): State {
    if !Fits(s, MsgBytes(m)) then FailPending(s, cid)
    else if !queued then Enqueue(NewEntry(s, cid), cid, m)
    else if cid !in s.pending then s
    else if |s.pending[cid].frames| < MAX_PENDING_FRAMES_PER_CID then Enqueue(s, cid, m)
    else FailPending(s, cid)
  }

  /** DATA ahead of its SYN, after the reservation loop evicted `ks`. */
  function DataQueued(s: State, cid: u32, m: Msg, ks: seq<u32>): State {
    Placed(EvictAll(s, ks), cid, m, cid in s.pending)
  }

  ghost function Exempt(s: State, cid: u32): set<u32> {
    if cid in s.pending then {cid} else {}
  }

  ghost predicate DataStep(s: State, cid: u32, n: u64, payload: Bytes, accepts: nat -> bool, ks: seq<u32>, s': State) {
    if cid in s.conns then s' == DataOnConn(s, cid, n, payload, accepts)
    else if cid in s.closed then s' == SendRst(s, cid)
    else if cid !in s.pending && |s.pending| >= MAX_PENDING_CIDS then s' == FailPending(s, cid)
    else
      && EvictionRun(s, Exempt(s, cid), |payload|, ks)
      && s' == DataQueued(s, cid, Data(n, payload), ks)
  }

  // ----- FIN and RST

  function FinStep(s: State, cid: u32, n: u64): State {
    if cid in s.conns then FinishIfDone(s, cid, StartHalfClose(s.conns[cid], n))
    else if cid in s.closed then s
    else if cid in s.pending then
      if |s.pending[cid].frames| < MAX_PENDING_FRAMES_PER_CID then Enqueue(s, cid, Fin(n)) else FailPending(s, cid)
    else if |s.pending| < MAX_PENDING_CIDS then Enqueue(NewEntry(s, cid), cid, Fin(n))
    else FailPending(s, cid)
  }

  function RstStep(s: State, cid: u32): State {
    if cid in s.conns then Teardown(s, cid) else Tombstone(MarkCancelled(s, cid), cid)
  }

  // ----- SYN, before and after the egress connect

  /** `valid`: the target decodes and its protocol is known. */
  function SynBegin(s: State, cid: u32, valid: bool): State {
    if cid in s.conns || cid in s.handshaking then s
    else
      var t := if cid in s.pending then s else NewEntry(s, cid);
      if cid in s.closed then RemovePending(t, cid)
      else if !valid then SendRst(Tombstone(RemovePending(t, cid), cid), cid)
      else t.(pending := t.pending[cid := t.pending[cid].(hasCancel := true)],
              handshaking := t.handshaking[cid := Handshake(t.now, false)])
  }

  function SynFailed(s: State, cid: u32): State {
    SendRst(Tombstone(EndHandshake(s, cid), cid), cid)
  }

  function SynCancelled(s: State, cid: u32): State {
    Tombstone(EndHandshake(s, cid), cid)
  }

  datatype Replayed = Replayed(conn: Conn, fin: seq<u64>, failed: bool)

  /** Replay queued frames into a fresh connection: DATA goes through the window, the last FIN
      is remembered, and an overflow or a refused chunk stops the replay. */
  ghost function Replay(c: Conn, frames: seq<Msg>, accepts: nat -> nat -> bool): Replayed {
    if frames == [] then Replayed(c, [], false)
    else
      var i := |frames| - 1;
      var p := Replay(c, frames[..i], accepts);
      if p.failed then p
      else match frames[i]
        case Fin(n) => p.(fin := [n])
        case Data(n, payload) =>
          var r := R.OnData(R.Reassembler, p.conn.window, p.conn.output, n, payload, accepts(i));
          p.(conn := p.conn.(window := r.window, output := r.output), failed := r.reset)
  }

  function FreshConn(s: State): Conn {
    Conn(Fresh(s.limit), [], false, 0, 0, false)
  }

  ghost function SynConnected(s: State, cid: u32, accepts: nat -> nat -> bool): State {
    var t := EndHandshake(s, cid);
    if cid in s.closed then t
    else if cid !in s.pending then t.(conns := t.conns[cid := FreshConn(s)])
    else if s.pending[cid].cancelled then Tombstone(t, cid)
    else
      var p := Replay(FreshConn(s), s.pending[cid].frames, accepts);
      if p.failed then SendRst(Tombstone(t, cid), cid)
      else if p.fin != [] then FinishIfDone(t, cid, StartHalfClose(p.conn, p.fin[0]))
      else t.(conns := t.conns[cid := p.conn])
  }

  // ----- steps

  datatype Event =
    | OnData(cid: u32, n: u64, payload: Bytes, accepts: nat -> bool, evicted: seq<u32>)
    | OnFin(cid: u32, n: u64)
    | OnRst(cid: u32)
    | OnSyn(cid: u32, valid: bool)
    | Connected(cid: u32, offers: nat -> nat -> bool)
    | ConnectFailed(cid: u32)
    | ConnectCancelled(cid: u32)
    | EgressEof(cid: u32, finSent: bool)
    | EgressSendFailed(cid: u32)
    | ForceClose(cid: u32)
    | IdleSweep(cid: u32)
    | StaleSweep(cid: u32)
    | TombstoneExpires(cid: u32)
    | Tick(later: nat)

  /** Numbering stays below the u64 wrap; time does not pass a connect's timeout before that
      connect has ended. */
  ghost predicate Next(s: State, e: Event, s': State) {
    match e
    case OnData(cid, n, payload, accepts, evicted) =>
      n < U64_MAX && |payload| <= MAX_PAYLOAD && DataStep(s, cid, n, payload, accepts, evicted, s')
    case OnFin(cid, n) => s' == FinStep(s, cid, n)
    case OnRst(cid) => s' == RstStep(s, cid)
    case OnSyn(cid, valid) => s' == SynBegin(s, cid, valid)
    case Connected(cid, offers) => cid in s.handshaking && s' == SynConnected(s, cid, offers)
    case ConnectFailed(cid) => cid in s.handshaking && s' == SynFailed(s, cid)
    case ConnectCancelled(cid) =>
      cid in s.handshaking && s.handshaking[cid].notified && s' == SynCancelled(s, cid)
    case EgressEof(cid, finSent) =>
      && cid in s.conns && !s.conns[cid].eof
      && s' == FinishIfDone(if finSent then s else SendRst(s, cid), cid, s.conns[cid].(eof := true))
    case EgressSendFailed(cid) => cid in s.conns && !s.conns[cid].eof && s' == Reset(s, cid)
    case ForceClose(cid) =>
      && cid in s.conns && s.conns[cid].finReceived
      && s' == s.(conns := s.conns[cid := s.conns[cid].(hc := 2)])
    case IdleSweep(cid) => cid in s.conns && s' == Reset(s, cid)
    case StaleSweep(cid) =>
      cid in s.pending && s.now >= s.pending[cid].since + PENDING_TTL && s' == Evict(s, cid)
    case TombstoneExpires(cid) =>
      cid in s.closed && s.now >= s.closed[cid] + CLOSED_TTL && s' == s.(closed := s.closed - {cid})
    case Tick(later) =>
      && later >= s.now
      && (forall c :: c in s.handshaking ==> later <= s.handshaking[c].start + CONNECT_TIMEOUT)
      && s' == s.(now := later)
  }

  ghost predicate Init(s: State) {
    && s.conns == map[] && s.pending == map[] && s.pendingBytes == 0
    && s.closed == map[] && s.handshaking == map[] && s.rsts == []
  }

  ghost predicate IsRun(states: seq<State>, events: seq<Event>) {
    && |states| == |events| + 1
    && Init(states[0])
    && forall i {:trigger events[i]} :: 0 <= i < |events| ==> Next(states[i], events[i], states[i + 1])
  }
}
