/** The two sending loops: the client read loop of the splitter's `handle_tcp_client` and the
    reassembler's `read_from_egress`.  Each numbers what it reads 1, 2, 3, ... and closes with a
    FIN carrying the next number, or with an RST when a chunk was lost. */
module Sender {
  import opened Wire
  import opened Traffic
  import D = Delivery

  /** What one turn of the `select!` loop met. */
  datatype Turn =
    | Chunk(payload: Bytes, taken: bool)   // read from the socket; `taken` by a link in time
    | CutShort(payload: Bytes)             // egress only: cancelled while waiting for a link
    | Eof
    | ReadError
    | Stop(reset: bool)                    // told to close; `reset` by an RST or a cancel
    | Spurious                             // woken for nothing, or by a remote FIN

  predicate GoesOn(t: Turn) {
    (t.Chunk? && t.taken) || t.Spurious?
  }

  predicate WantsFin(t: Turn) {
    t.Eof? || t.ReadError? || t == Stop(false)
  }

  predicate EndsAt(turns: seq<Turn>, k: nat) {
    && k < |turns| && !GoesOn(turns[k])
    && forall j :: 0 <= j < k ==> GoesOn(turns[j])
  }

  /** Every chunk read from the socket, sent or not. */
  function Chunks(turns: seq<Turn>): seq<Bytes> {
    if turns == [] then []
    else
      var t := turns[|turns| - 1];
      Chunks(turns[..|turns| - 1]) + if t.Chunk? || t.CutShort? then [t.payload] else []
  }

  /** The number of the i-th chunk, counting from 0, on a wrapping u64 counter. */
  function Seqno(i: nat): u64 {
    (i + 1) % (U64_MAX + 1)
  }

  function Numbered(cid: u32, chunks: seq<Bytes>): seq<Packet> {
    seq(|chunks|, i requires 0 <= i < |chunks| => Data(cid, Seqno(i), chunks[i]))
  }

  function Farewell(cid: u32, t: Turn, next: u64, finTaken: bool): seq<Packet> {
    match t
    case Chunk(_, _) => [Rst(cid)]
    case CutShort(_) => []
    case Stop(true) => []
    case Spurious => []
    case _ => [if finTaken then Fin(cid, next) else Rst(cid)]
  }

  /** Everything the loop hands to the pool when turn k ends it. */
  function Output(cid: u32, turns: seq<Turn>, k: nat, finTaken: bool): seq<Packet>
    requires k < |turns|
  {
    var chunks := Chunks(turns[..k]);
    Numbered(cid, chunks) + Farewell(cid, turns[k], Seqno(|chunks|), finTaken)
  }

  lemma NumberedMore(cid: u32, turns: seq<Turn>, k: nat)
    requires k < |turns|
    ensures var chunks, t := Chunks(turns[..k]), turns[k];
            Chunks(turns[..k + 1]) == chunks + (if t.Chunk? || t.CutShort? then [t.payload] else [])
    ensures var chunks, t := Chunks(turns[..k]), turns[k];
            Numbered(cid, Chunks(turns[..k + 1]))
              == Numbered(cid, chunks) + if t.Chunk? || t.CutShort? then [Data(cid, Seqno(|chunks|), t.payload)] else []
    ensures Succ(Seqno(|Chunks(turns[..k])|)) == Seqno(|Chunks(turns[..k])| + 1)
  {
    assert turns[..k + 1][..k] == turns[..k];
    SeqnoStep(|Chunks(turns[..k])|);
  }

  lemma SeqnoStep(i: nat)
    ensures Succ(Seqno(i)) == Seqno(i + 1)
  {
  }

  /** Read off the frames alone: a stream that lost a chunk, or whose FIN no link took, ends in an RST
      and has no FIN; a stream cut short or reset ends in neither; every other ended stream ends in its
      FIN.  The frames before that are DATA frames, one for each chunk read and taken. */
  ghost predicate EndsProperly(cid: u32, frames: seq<Packet>, turns: seq<Turn>, k: nat, finTaken: bool)
    requires k < |turns|
  {
    var t := turns[k];
    var farewell := if t.CutShort? || t == Stop(true) then 0 else 1;
    && |frames| >= farewell
    && (forall i :: 0 <= i < |frames| - farewell ==> frames[i].Data? && frames[i].cid == cid)
    && (farewell == 1 ==>
          var last := frames[|frames| - 1];
          && last.cid == cid
          && (if t.Chunk? || !finTaken then last.Rst? else last.Fin? && last.n == Seqno(|frames| - 1)))
    && Payloads(frames[..|frames| - farewell]) == Chunks(turns[..k])
  }

  function Payloads(frames: seq<Packet>): seq<Bytes>
    requires forall i :: 0 <= i < |frames| ==> frames[i].Data?
  {
    seq(|frames|, i requires 0 <= i < |frames| => frames[i].payload)
  }

  /** `Chunks` is every chunk read, in order. */
  lemma {:induction false} ChunksAreRead(a: seq<Turn>, b: seq<Turn>)
    ensures Chunks(a + b) == Chunks(a) + Chunks(b)
  {
    if b == [] {
      assert a + b == a;
    } else {
      var n := |b| - 1;
      assert (a + b)[..|a| + n] == a + b[..n];
      ChunksAreRead(a, b[..n]);
    }
  }

  lemma OneChunk(t: Turn)
    ensures Chunks([t]) == if t.Chunk? || t.CutShort? then [t.payload] else []
  {
    assert [t][..0] == [];
  }

  lemma OutputEndsProperly(cid: u32, turns: seq<Turn>, k: nat, finTaken: bool)
    requires EndsAt(turns, k)
    ensures EndsProperly(cid, Output(cid, turns, k, finTaken), turns, k, finTaken)
  {
    hide Chunks, Seqno;
    var chunks, out := Chunks(turns[..k]), Output(cid, turns, k, finTaken);
    var data := Numbered(cid, chunks);
    assert out[..|data|] == data;
    assert Payloads(data) == chunks;
    if turns[k].CutShort? || turns[k] == Stop(true) {
      assert out == data;
    }
  }

  /** The splitter's client loop.  `frames` are the frames handed to the pool; `grace` says that
      the handler goes on to wait for the remote FIN. */
  method ClientLoop(cid: u32, turns: seq<Turn>, finTaken: bool) returns (frames: seq<Packet>, grace: bool)
    requires forall t :: t in turns ==> !t.CutShort?
    ensures forall k: nat :: EndsAt(turns, k) ==> frames == Output(cid, turns, k, finTaken)
    ensures forall k: nat :: EndsAt(turns, k) ==> EndsProperly(cid, frames, turns, k, finTaken)
    ensures (forall t :: t in turns ==> GoesOn(t)) ==> frames == Numbered(cid, Chunks(turns))
    ensures grace <==> finTaken && exists k: nat :: EndsAt(turns, k) && turns[k] == Eof
  {
    hide Chunks, Numbered, Seqno, EndsProperly;
    frames, grace := [], false;
    var s: u64, i, ended, forceRst, wantsFin := 1, 0, false, false, false;
    NothingYet(cid, turns);
    while i < |turns| && !ended
      invariant 0 <= i <= |turns|
      invariant !ended ==> !forceRst && !wantsFin && forall j :: 0 <= j < i ==> GoesOn(turns[j])
      invariant ended ==> i > 0 && EndsAt(turns, i - 1)
      invariant var c := Chunks(turns[..if ended then i - 1 else i]); frames == Numbered(cid, c) && s == Seqno(|c|)
      invariant ended ==> forceRst == turns[i - 1].Chunk? && wantsFin == WantsFin(turns[i - 1])
      decreases |turns| - i
    {
      NumberedMore(cid, turns, i);
      match turns[i] {
        case Chunk(payload, taken) =>
          if taken {
            frames, s := frames + [Data(cid, s, payload)], Succ(s);
          } else {
            ended, forceRst := true, true;
          }
        case Eof => ended, wantsFin := true, true;
        case ReadError => ended, wantsFin := true, true;
        case Stop(reset) => ended, wantsFin := true, !reset;
        case Spurious =>
      }
      i := i + 1;
    }
    if ended {
      OneEnd(turns, i - 1);
      OutputEndsProperly(cid, turns, i - 1, finTaken);
      if forceRst || (wantsFin && !finTaken) {
        frames := frames + [Rst(cid)];
      } else if wantsFin {
        frames := frames + [Fin(cid, s)];
      } else {
        assert frames + [] == frames;
      }
      grace := turns[i - 1].Eof? && finTaken;
    } else {
      assert turns[..i] == turns;
    }
  }

  lemma NothingYet(cid: u32, turns: seq<Turn>)
    ensures Numbered(cid, Chunks(turns[..0])) == [] && Seqno(|Chunks(turns[..0])|) == 1
  {
  }

  lemma OneEnd(turns: seq<Turn>, k: nat)
    requires EndsAt(turns, k)
    ensures forall j: nat :: EndsAt(turns, j) ==> j == k
    ensures turns[k] in turns
  {
  }

  /** The reassembler's egress reader.  `removed`: it takes the connection down itself. */
  method EgressReader(cid: u32, turns: seq<Turn>, finTaken: bool) returns (frames: seq<Packet>, removed: bool)
    requires forall t :: t in turns ==> t != Stop(false)
    ensures forall k: nat :: EndsAt(turns, k) ==> frames == Output(cid, turns, k, finTaken)
    ensures forall k: nat :: EndsAt(turns, k) ==> EndsProperly(cid, frames, turns, k, finTaken)
    ensures (forall t :: t in turns ==> GoesOn(t)) ==> frames == Numbered(cid, Chunks(turns))
    ensures removed <==> exists k: nat :: EndsAt(turns, k) && turns[k].Chunk?
  {
    hide Chunks, Numbered, Seqno, EndsProperly;
    frames, removed := [], false;
    var s: u64, i, ended, cancelled := 1, 0, false, false;
    NothingYet(cid, turns);
    while i < |turns| && !ended
      invariant 0 <= i <= |turns|
      invariant !ended ==> !removed && !cancelled && forall j :: 0 <= j < i ==> GoesOn(turns[j])
      invariant ended ==> i > 0 && EndsAt(turns, i - 1)
      invariant var c := Chunks(turns[..if ended then i - 1 else i]); frames == Numbered(cid, c) && s == Seqno(|c|)
      invariant ended ==> cancelled == (turns[i - 1].CutShort? || turns[i - 1].Stop?) && removed == turns[i - 1].Chunk?
      decreases |turns| - i
    {
      NumberedMore(cid, turns, i);
      match turns[i] {
        case Chunk(payload, taken) =>
          if taken {
            frames, s := frames + [Data(cid, s, payload)], Succ(s);
          } else {
            ended, removed := true, true;
          }
        case CutShort(_) => ended, cancelled := true, true;
        case Stop(_) => ended, cancelled := true, true;
        case Eof => ended := true;
        case ReadError => ended := true;
        case Spurious =>
      }
      i := i + 1;
    }
    if ended {
      OneEnd(turns, i - 1);
      OutputEndsProperly(cid, turns, i - 1, finTaken);
      if cancelled {
        assert frames + [] == frames;
      } else {
        frames := frames + [if !removed && finTaken then Fin(cid, s) else Rst(cid)];
      }
    } else {
      assert turns[..i] == turns;
    }
  }

  /** A FIN is sent exactly for a stream of which every chunk read was sent, and it carries the
      number after the last one; a stream that lost a chunk never ends in a FIN. */
  lemma FinMeansWholeStream(cid: u32, turns: seq<Turn>, k: nat, finTaken: bool)
    requires EndsAt(turns, k)
    ensures var out, read := Output(cid, turns, k, finTaken), Chunks(turns[..k + 1]);
            (exists n :: Fin(cid, n) in out)
              <==> finTaken && WantsFin(turns[k])
    ensures var out, read := Output(cid, turns, k, finTaken), Chunks(turns[..k + 1]);
            (exists n :: Fin(cid, n) in out) ==> out == Numbered(cid, read) + [Fin(cid, Seqno(|read|))]
    ensures var out, read := Output(cid, turns, k, finTaken), Chunks(turns[..k + 1]);
            |read| > |Chunks(turns[..k])| ==> forall n :: Fin(cid, n) !in out
  {
    hide Chunks, Seqno;
    NumberedMore(cid, turns, k);
    var next := Seqno(|Chunks(turns[..k])|);
    var tail := Farewell(cid, turns[k], next, finTaken);
    if WantsFin(turns[k]) {
      assert finTaken ==> Fin(cid, next) in tail;
    }
  }

  // ----- the loops as the sender of the delivery protocol

  ghost predicate Sendable(frames: seq<Packet>) {
    forall i :: 0 <= i < |frames| ==> frames[i].Data? || frames[i].Fin?
  }

  /** One frame put on a link, in the delivery model's terms. */
  ghost function Put(s: D.State, f: Packet, link: nat): D.State
    requires link < |s.links| && (f.Data? || f.Fin?)
  {
    if f.Data? then D.Enqueue(s, link, D.Data(f.n, f.payload)).(sent := s.sent + [f.payload])
    else D.Enqueue(s, link, D.Fin(f.n)).(finished := true)
  }

  /** Frames put on links in order, the i-th on link `route(i)`. */
  ghost function Carry(s: D.State, frames: seq<Packet>, route: nat -> nat): (t: D.State)
    requires Sendable(frames) && forall i :: route(i) < |s.links|
    ensures |t.links| == |s.links|
  {
    if frames == [] then s
    else
      var i := |frames| - 1;
      Put(Carry(s, frames[..i], route), frames[i], route(i))
  }

  ghost function EventOf(f: Packet, link: nat): D.Event
    requires f.Data? || f.Fin?
  {
    if f.Data? then D.SendData(link, f.payload) else D.SendFin(link)
  }

  function WholeStream(cid: u32, chunks: seq<Bytes>): seq<Packet> {
    Numbered(cid, chunks) + [Fin(cid, Seqno(|chunks|))]
  }

  lemma {:induction false} CarriedState(s: D.State, cid: u32, chunks: seq<Bytes>, route: nat -> nat)
    requires forall i :: route(i) < |s.links|
    requires s.sent == [] && !s.finished
    ensures Sendable(Numbered(cid, chunks))
    ensures var t := Carry(s, Numbered(cid, chunks), route); t.sent == chunks && !t.finished
  {
    if chunks != [] {
      var i := |chunks| - 1;
      assert Numbered(cid, chunks)[..i] == Numbered(cid, chunks[..i]);
      CarriedState(s, cid, chunks[..i], route);
      assert chunks == chunks[..i] + [chunks[i]];
    }
  }

  lemma PutIsNext(s: D.State, f: Packet, link: nat)
    requires link < |s.links| && (f.Data? || f.Fin?) && !s.finished && f.n == |s.sent| + 1 && |s.sent| + 2 < U64_MAX
    ensures D.Next(s, EventOf(f, link), Put(s, f, link))
  {
  }

  lemma StreamFrame(cid: u32, chunks: seq<Bytes>, i: nat)
    requires i <= |chunks| && |chunks| < U64_MAX
    ensures var frames := WholeStream(cid, chunks);
            && |frames| == |chunks| + 1 && Sendable(frames) && frames[..i] == Numbered(cid, chunks[..i])
            && frames[i].n == i + 1
  {
  }

  /** The frames a loop sends up to and including its FIN are a run of the delivery protocol's
      sender, frame by frame, whichever links carry them. */
  lemma LoopIsSender(s: D.State, cid: u32, chunks: seq<Bytes>, route: nat -> nat, i: nat)
    requires forall j :: route(j) < |s.links|
    requires s.sent == [] && !s.finished && |chunks| + 2 < U64_MAX && i <= |chunks|
    ensures var frames := WholeStream(cid, chunks);
            && i < |frames| && Sendable(frames[..i]) && Sendable(frames[..i + 1])
            && (frames[i].Data? || frames[i].Fin?)
            && D.Next(Carry(s, frames[..i], route), EventOf(frames[i], route(i)), Carry(s, frames[..i + 1], route))
  {
    hide WholeStream, Put, EventOf, D.Next, Numbered;
    var frames := WholeStream(cid, chunks);
    StreamFrame(cid, chunks, i);
    CarriedState(s, cid, chunks[..i], route);
    assert frames[..i + 1][..i] == frames[..i];
    PutIsNext(Carry(s, frames[..i], route), frames[i], route(i));
  }
}
