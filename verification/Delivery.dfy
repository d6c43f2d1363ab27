/** One direction of a connection, end to end: a sender numbers chunks 1, 2, 3, ..., any number
    of FIFO links carry them in any interleaving, links may die and lose frames, and a receiver
    puts the stream back together.  Both directions have this shape. */
module Delivery {
  import opened Wire
  import opened Reorder
  import opened Receiver
  import MapSums

  datatype Msg = Data(s: u64, payload: Bytes) | Fin(next: nat)

  datatype State = State(
    side: Side,              // which end receives
    sent: seq<Bytes>,        // chunks sent so far; chunk i carries sequence number i + 1
    finished: bool,          // the FIN has been sent
    links: seq<seq<Msg>>,    // frames in flight on each link, oldest first
    lost: bool,              // some link died with frames of this connection
    window: Window,
    output: seq<Bytes>,      // chunks the receiver's channel has accepted
    fates: seq<bool>,        // of each chunk the window let through, whether the channel took it
    finSeq: nat,             // the FIN's number at the receiver, 0 before it arrives
    reset: bool)             // the receiver reported a reset or was told of one

  datatype Event =
    | SendData(link: nat, payload: Bytes)
    | SendFin(link: nat)
    | ResendFin(link: nat)               // recovery puts a lost FIN on another link
    | Deliver(link: nat, accepts: nat -> bool, late: bool)   // late: by a handler that got hold of the
                                                             // connection before a reset removed it
    | LinkDies(link: nat, kept: nat)     // frames from position `kept` on are lost
    | AddLink
    | RemoteReset

  ghost predicate Init(s: State) {
    && s.sent == [] && !s.finished && !s.lost && !s.reset && s.output == [] && s.fates == [] && s.finSeq == 0
    && (forall l :: 0 <= l < |s.links| ==> s.links[l] == [])
    && s.window == Fresh(s.window.maxBytes)
  }

  ghost function Enqueue(s: State, link: nat, m: Msg): State
    requires link < |s.links|
  {
    s.(links := s.links[link := s.links[link] + [m]])
  }

  ghost function NewFates(side: Side, w: Window, n: u64, payload: Bytes, accepts: nat -> bool): seq<bool> {
    var r := Pushed(w, n, payload).1;
    if r.accepted then Fates(side, |r.ready|, 0, accepts) else []
  }

  ghost function Receive(s: State, m: Msg, accepts: nat -> bool, late: bool): State {
    if s.reset && !late then s
    else match m
      case Data(n, payload) =>
        var r := OnData(s.side, s.window, s.output, n, payload, accepts);
        s.(window := r.window, output := r.output, reset := s.reset || r.reset,
           fates := s.fates + NewFates(s.side, s.window, n, payload, accepts))
      case Fin(next) => s.(finSeq := next)
  }

  /** Numbering that never reaches the u64 wrap is the only assumption on a run. */
  ghost predicate Next(s: State, e: Event, s': State) {
    match e
    case SendData(l, payload) =>
      && l < |s.links| && !s.finished && |s.sent| + 2 < U64_MAX
      && s' == Enqueue(s, l, Data(|s.sent| + 1, payload)).(sent := s.sent + [payload])
    case SendFin(l) =>
      && l < |s.links| && !s.finished
      && s' == Enqueue(s, l, Fin(|s.sent| + 1)).(finished := true)
    case ResendFin(l) =>
      && l < |s.links| && s.finished
      && s' == Enqueue(s, l, Fin(|s.sent| + 1))
    case Deliver(l, accepts, late) =>
      && l < |s.links| && s.links[l] != []
      && s' == Receive(s.(links := s.links[l := s.links[l][1..]]), s.links[l][0], accepts, late)
    case LinkDies(l, kept) =>
      && l < |s.links| && kept < |s.links[l]|
      && s' == s.(links := s.links[l := s.links[l][..kept]], lost := true)
    case AddLink => s' == s.(links := s.links + [[]])
    case RemoteReset => s' == s.(reset := true)
  }

  ghost predicate IsRun(states: seq<State>, events: seq<Event>) {
    && |states| == |events| + 1
    && Init(states[0])
    && forall i :: 0 <= i < |events| ==> Next(states[i], events[i], states[i + 1])
  }

  // ----- what every step keeps

  ghost predicate GenuineMsg(sent: seq<Bytes>, finished: bool, m: Msg) {
    match m
    case Data(n, payload) => 1 <= n <= |sent| && payload == sent[n - 1]
    case Fin(next) => finished && next == |sent| + 1
  }

  /** The received set, read off the window: every number taken in carries its own chunk. */
  ghost function Known(w: Window, sent: seq<Bytes>): map<u64, Bytes> {
    map k: u64 | 1 <= k <= |sent| && w.Has(k) :: sent[k - 1]
  }

  ghost predicate GenuineWindow(w: Window, sent: seq<Bytes>) {
    && 1 <= w.expected <= |sent| + 1 < U64_MAX
    && Represents(w, sent[..w.expected - 1], Known(w, sent))
  }

  ghost predicate InFlight(links: seq<seq<Msg>>, m: Msg) {
    exists l :: 0 <= l < |links| && m in links[l]
  }

  ghost predicate Genuine(s: State) {
    && GenuineWindow(s.window, s.sent)
    && (forall m :: InFlight(s.links, m) ==> GenuineMsg(s.sent, s.finished, m))
    && (s.finSeq != 0 ==> s.finished && s.finSeq == |s.sent| + 1)
  }

  /** The output is what the channel took of the chunks let through, which are the first ones of
      the stream; without a reset it took them all. */
  ghost predicate InOrder(s: State) {
    && 0 <= s.window.expected - 1 == |s.fates| <= |s.sent|
    && s.output == Kept(s.sent[..s.window.expected - 1], s.fates)
    && (!s.reset ==> AllKept(s.fates))
  }

  /** Nothing disappears without a death or a reset. */
  ghost predicate Accounted(s: State) {
    && |s.sent| + 1 < U64_MAX
    && (!s.lost && !s.reset ==>
          && (forall n: u64 :: 1 <= n <= |s.sent| ==>
                s.window.Has(n) || InFlight(s.links, Data(n, s.sent[n - 1])))
          && (s.finished ==> s.finSeq != 0 || InFlight(s.links, Fin(|s.sent| + 1))))
  }

  ghost predicate Inv(s: State) {
    Genuine(s) && InOrder(s) && Accounted(s)
  }

  lemma InitInv(s: State)
    requires Init(s)
    ensures Inv(s)
  {
    assert Known(s.window, s.sent) == map[];
  }

  /** A window that represents some part of the sent stream represents its own `Known`. */
  lemma RepresentsKnown(w: Window, delivered: seq<Bytes>, m: map<u64, Bytes>, sent: seq<Bytes>)
    requires Represents(w, delivered, m) && |sent| + 1 < U64_MAX
    requires forall k :: k in m ==> 1 <= k <= |sent| && m[k] == sent[k - 1]
    ensures m == Known(w, sent)
    ensures w.expected <= |sent| + 1 && delivered == sent[..w.expected - 1]
  {
    var top: u64 := |sent| + 1;
    assert top !in m;
    assert w.expected <= top;
    assert forall k :: k in m <==> 1 <= k && w.Has(k);
    assert m == Known(w, sent);
    assert delivered == sent[..w.expected - 1];
  }

  /** Taking in a genuine chunk keeps the window genuine, makes ready exactly the next stretch
      of the sent stream, and forgets nothing. */
  lemma PushGenuine(w: Window, sent: seq<Bytes>, n: u64)
    requires GenuineWindow(w, sent) && 1 <= n <= |sent|
    requires !Pushed(w, n, sent[n - 1]).1.overflow
    ensures var (w', r) := Pushed(w, n, sent[n - 1]);
            && GenuineWindow(w', sent)
            && sent[..w.expected - 1] + r.ready == sent[..w'.expected - 1]
            && w'.Has(n) && (forall k: u64 :: 1 <= k && w.Has(k) ==> w'.Has(k))
  {
    hide Pushed;
    var (w', r) := Pushed(w, n, sent[n - 1]);
    var out, m, a := sent[..w.expected - 1], Known(w, sent), Arrival(n, sent[n - 1]);
    RepresentsKnown(w, out, m, sent);
    PushRepresents(w, out, m, a);
    RepresentsKnown(w', out + r.ready, Learn(m, a), sent);
    forall k: u64 | 1 <= k && w.Has(k)
      ensures w'.Has(k)
    {
      assert k in m;
    }
  }

  lemma RefusedIsKnown(w: Window, n: u64, payload: Bytes)
    ensures var (_, r) := Pushed(w, n, payload); if r.accepted then !r.overflow else r.overflow || w.Has(n)
  {
    hide Drain, MapSums.MapSum;
  }

  lemma GenuineRange(w: Window, sent: seq<Bytes>)
    requires GenuineWindow(w, sent)
    ensures 1 <= w.expected <= |sent| + 1 < U64_MAX
  {
  }

  lemma ReceiveInv(s: State, m: Msg, accepts: nat -> bool, late: bool)
    requires Genuine(s) && InOrder(s) && GenuineMsg(s.sent, s.finished, m)
    ensures var s' := Receive(s, m, accepts, late);
            && Genuine(s') && InOrder(s')
            && (!s'.reset ==> forall k: u64 :: 1 <= k && s.window.Has(k) ==> s'.window.Has(k))
            && (!s'.reset && m.Data? ==> s'.window.Has(m.s))
  {
    hide Pushed, Offer, GenuineWindow, Kept, AllKept, Fates;
    if (!s.reset || late) && m.Data? {
      var (w', r) := Pushed(s.window, m.s, m.payload);
      RefusedIsKnown(s.window, m.s, m.payload);
      GenuineRange(s.window, s.sent);
      if r.accepted {
        PushGenuine(s.window, s.sent, m.s);
        GenuineRange(w', s.sent);
        OfferFates(s.side, r.ready, 0, accepts);
        assert r.ready[0..] == r.ready;
        KeptConcat(s.sent[..s.window.expected - 1], s.fates, r.ready, Fates(s.side, |r.ready|, 0, accepts));
        AllKeptConcat(s.fates, Fates(s.side, |r.ready|, 0, accepts));
      } else {
        assert s.fates + [] == s.fates;
      }
    }
  }

  lemma AllKeptConcat(f: seq<bool>, g: seq<bool>)
    ensures AllKept(f) && AllKept(g) ==> AllKept(f + g)
  {
  }

  /** Frames in flight after appending `m` to link `l`. */
  lemma EnqueueInFlight(links: seq<seq<Msg>>, l: nat, m: Msg, links': seq<seq<Msg>>)
    requires l < |links| && links' == links[l := links[l] + [m]]
    ensures forall x: Msg :: InFlight(links', x) <==> InFlight(links, x) || x == m
  {
    assert m in links'[l];
    forall x: Msg
      ensures InFlight(links', x) <==> InFlight(links, x) || x == m
    {
      if InFlight(links, x) {
        var k :| 0 <= k < |links| && x in links[k];
        assert x in links'[k];
      }
    }
  }

  /** Frames in flight after taking the head off link `l`. */
  lemma DequeueInFlight(links: seq<seq<Msg>>, l: nat)
    requires l < |links| && links[l] != []
    ensures InFlight(links, links[l][0])
    ensures forall x: Msg :: InFlight(links[l := links[l][1..]], x) ==> InFlight(links, x)
    ensures forall x: Msg :: InFlight(links, x) ==> InFlight(links[l := links[l][1..]], x) || x == links[l][0]
  {
    var links' := links[l := links[l][1..]];
    assert links[l] == [links[l][0]] + links'[l];
    assert links[l][0] in links[l];
    forall x: Msg | InFlight(links, x) && x != links[l][0]
      ensures InFlight(links', x)
    {
      var k :| 0 <= k < |links| && x in links[k];
      assert x in links'[k];
    }
    forall x: Msg | InFlight(links', x)
      ensures InFlight(links, x)
    {
      var k :| 0 <= k < |links'| && x in links'[k];
      assert x in links[k];
    }
  }

  lemma DeliverInv(s: State, l: nat, accepts: nat -> bool, late: bool, s': State)
    requires Inv(s) && Next(s, Deliver(l, accepts, late), s')
    ensures Inv(s')
  {
    hide OnData, GenuineWindow, NewFates, AllKept;
    DequeueInFlight(s.links, l);
    ReceiveInv(s.(links := s.links[l := s.links[l][1..]]), s.links[l][0], accepts, late);
  }

  /** Sending one more chunk does not change what the window knows. */
  lemma SentMore(w: Window, sent: seq<Bytes>, payload: Bytes)
    requires GenuineWindow(w, sent) && |sent| + 2 < U64_MAX
    ensures GenuineWindow(w, sent + [payload])
  {
    RepresentsKnown(w, sent[..w.expected - 1], Known(w, sent), sent);
    var sent' := sent + [payload];
    assert sent'[..w.expected - 1] == sent[..w.expected - 1];
    var top: u64 := |sent| + 1;
    assert !w.Has(top);
    assert Known(w, sent') == Known(w, sent);
  }

  lemma SendDataInv(s: State, l: nat, payload: Bytes, s': State)
    requires Inv(s) && Next(s, SendData(l, payload), s')
    ensures Inv(s')
  {
    hide GenuineWindow;
    SentMore(s.window, s.sent, payload);
    GenuineRange(s.window, s.sent);
    assert s'.sent[..s.window.expected - 1] == s.sent[..s.window.expected - 1];
    var m := Data(|s.sent| + 1, payload);
    EnqueueInFlight(s.links, l, m, s'.links);
  }

  lemma SendFinInv(s: State, l: nat, s': State)
    requires Inv(s) && (Next(s, SendFin(l), s') || Next(s, ResendFin(l), s'))
    ensures Inv(s')
  {
    var m := Fin(|s.sent| + 1);
    EnqueueInFlight(s.links, l, m, s'.links);
  }

  lemma LinkDiesInv(s: State, l: nat, kept: nat, s': State)
    requires Inv(s) && Next(s, LinkDies(l, kept), s')
    ensures Inv(s')
  {
    forall x: Msg | InFlight(s'.links, x)
      ensures InFlight(s.links, x)
    {
      var k :| 0 <= k < |s'.links| && x in s'.links[k];
      assert x in s.links[k];
    }
  }

  lemma AddLinkInv(s: State, s': State)
    requires Inv(s) && Next(s, AddLink, s')
    ensures Inv(s')
  {
    forall x: Msg
      ensures InFlight(s.links, x) <==> InFlight(s'.links, x)
    {
      if InFlight(s.links, x) {
        var k :| 0 <= k < |s.links| && x in s.links[k];
        assert x in s'.links[k];
      }
    }
  }

  lemma StepInv(s: State, e: Event, s': State)
    requires Inv(s) && Next(s, e, s')
    ensures Inv(s')
  {
    match e
    case SendData(l, payload) => SendDataInv(s, l, payload, s');
    case SendFin(l) => SendFinInv(s, l, s');
    case ResendFin(l) => SendFinInv(s, l, s');
    case Deliver(l, accepts, late) => DeliverInv(s, l, accepts, late, s');
    case LinkDies(l, kept) => LinkDiesInv(s, l, kept, s');
    case AddLink => AddLinkInv(s, s');
    case RemoteReset =>
  }

  lemma {:induction false} RunInv(states: seq<State>, events: seq<Event>, i: nat)
    requires IsRun(states, events) && i < |states|
    ensures Inv(states[i])
  {
    hide Next, Inv;
    if i == 0 {
      InitInv(states[0]);
    } else {
      RunInv(states, events, i - 1);
      StepInv(states[i - 1], events[i - 1], states[i]);
    }
  }

  /** In every run, at every moment before the first reported reset, the receiver has handed
      over exactly the first `expected - 1` chunks of what was sent.  At every moment, handlers
      that run on after a reset included, it has handed over exactly those of them that its channel
      took. */
  lemma PrefixDelivery(states: seq<State>, events: seq<Event>, i: nat)
    requires IsRun(states, events) && i < |states|
    ensures var s := states[i];
            && 0 <= s.window.expected - 1 == |s.fates| <= |s.sent|
            && (!s.reset ==> s.output == s.sent[..s.window.expected - 1])
            && s.output == Kept(s.sent[..s.window.expected - 1], s.fates)
  {
    RunInv(states, events, i);
    var s := states[i];
    if !s.reset {
      AllAreKept(s.sent[..s.window.expected - 1], s.fates);
    }
  }

  /** What the record of fates says of the output: by position it is the beginning of the stream if
      and only if the channel took nothing after refusing a chunk, and then it is a prefix. */
  lemma PrefixIff(states: seq<State>, events: seq<Event>, i: nat)
    requires IsRun(states, events) && i < |states|
    ensures var s := states[i];
            && (InitialSegment(s.fates) <==> NoneAfterRefusal(s.fates))
            && (NoneAfterRefusal(s.fates) ==> s.output <= s.sent)
            && |Positions(s.fates)| == |s.output|
            && forall j :: 0 <= j < |s.output| ==>
                 Positions(s.fates)[j] < |s.sent| && s.output[j] == s.sent[Positions(s.fates)[j]]
  {
    hide Next, Kept, Positions;
    var s := states[i];
    PrefixDelivery(states, events, i);
    InitialIff(s.fates);
    KeptAt(s.sent[..s.window.expected - 1], s.fates);
    if NoneAfterRefusal(s.fates) {
      InitialIsPrefix(s.sent[..s.window.expected - 1], s.fates);
    }
  }

  /** The reassembler stops offering at a refusal, so the step that brings its first reset still
      leaves a prefix. */
  lemma FirstResetKeepsPrefix(states: seq<State>, events: seq<Event>, i: nat)
    requires IsRun(states, events) && i < |events| && states[i].side.Reassembler? && !states[i].reset
    ensures NoneAfterRefusal(states[i + 1].fates) && states[i + 1].output <= states[i + 1].sent
  {
    var s, e, s' := states[i], events[i], states[i + 1];
    RunInv(states, events, i);
    assert Next(s, e, s');
    if e.Deliver? && s.links[e.link][0].Data? {
      hide Pushed, Fates, Offer, Kept;
      var m := s.links[e.link][0];
      var fates := NewFates(s.side, s.window, m.s, m.payload, e.accepts);
      var r := Pushed(s.window, m.s, m.payload).1;
      if r.accepted {
        ReassemblerFates(|r.ready|, 0, e.accepts);
      }
      assert s'.fates == s.fates + fates;
    }
    PrefixIff(states, events, i + 1);
  }

  // ----- which delivery breaks the prefix

  /** For some behaviour of the channel, delivering the head of link `l` leaves an output that is not,
      by position, the beginning of the stream. */
  ghost predicate CanBreak(s: State, l: nat, late: bool) {
    exists accepts, s' :: Next(s, Deliver(l, accepts, late), s') && !InitialSegment(s'.fates)
  }

  /** What a caller can see beforehand: the frame is the next one expected and will be handled, and
      either a chunk was refused before it, or this is the splitter and the chunk behind it becomes
      ready together with it. */
  predicate Exposed(s: State, m: Msg, late: bool) {
    && m.Data? && (!s.reset || late) && m.s == s.window.expected
    && (false in s.fates || (s.side.Splitter? && Succ(m.s) in s.window.pending))
  }

  lemma ReadySize(w: Window, n: u64, payload: Bytes)
    ensures var r := Pushed(w, n, payload).1;
            && (r.accepted && r.ready != [] <==> n == w.expected)
            && (n == w.expected ==> (|r.ready| >= 2 <==> Succ(n) in w.pending))
  {
    hide MapSums.MapSum;
  }

  lemma NewFatesSize(side: Side, w: Window, n: u64, payload: Bytes, accepts: nat -> bool)
    ensures var g := NewFates(side, w, n, payload, accepts);
            && (g != [] <==> n == w.expected)
            && (n == w.expected ==> (|g| >= 2 <==> Succ(n) in w.pending))
            && (side.Reassembler? ==> NoneAfterRefusal(g))
            && (g != [] ==> g[0] == accepts(0))
            && (side.Splitter? && |g| >= 2 ==> g[1] == accepts(1))
  {
    hide Pushed;
    ReadySize(w, n, payload);
    var r := Pushed(w, n, payload).1;
    if r.accepted {
      ReassemblerFates(|r.ready|, 0, accepts);
      SplitterFates(|r.ready|, 0, accepts);
      var g := Fates(side, |r.ready|, 0, accepts);
      assert side.Splitter? && |g| >= 2 ==> g[1 - 0] == accepts(1);
    }
  }

  lemma AppendedFates(f: seq<bool>, g: seq<bool>)
    requires NoneAfterRefusal(f)
    ensures false !in f && NoneAfterRefusal(g) ==> NoneAfterRefusal(f + g)
    ensures g != [] && false in f && g[0] ==> !NoneAfterRefusal(f + g)
    ensures |g| >= 2 && !g[0] && g[1] ==> !NoneAfterRefusal(f + g)
  {
    var all := f + g;
    if g != [] && false in f && g[0] {
      var j :| 0 <= j < |f| && !f[j];
      assert !all[j] && all[|f|];
    }
    if |g| >= 2 && !g[0] && g[1] {
      assert !all[|f|] && all[|f| + 1];
    }
    if false !in f && NoneAfterRefusal(g) {
      forall j | 0 <= j < |f|
        ensures all[j]
      {
        assert f[j] in f;
      }
      forall j, k | 0 <= j < k < |all| && !all[j]
        ensures !all[k]
      {
        assert !g[j - |f|];
      }
    }
  }

  /** One delivery, whatever the channel answers, keeps an unexposed state in order. */
  lemma UnexposedKeeps(s: State, m: Msg, accepts: nat -> bool, late: bool)
    requires NoneAfterRefusal(s.fates) && !Exposed(s, m, late)
    ensures NoneAfterRefusal(Receive(s, m, accepts, late).fates)
  {
    hide OnData, NewFates;
    if m.Data? && (!s.reset || late) {
      var g := NewFates(s.side, s.window, m.s, m.payload, accepts);
      NewFatesSize(s.side, s.window, m.s, m.payload, accepts);
      AppendedFates(s.fates, g);
      if g == [] {
        assert s.fates + g == s.fates;
      }
    }
  }

  lemma ExposedBreaks(s: State, m: Msg, late: bool) returns (accepts: nat -> bool)
    requires NoneAfterRefusal(s.fates) && Exposed(s, m, late)
    ensures !NoneAfterRefusal(Receive(s, m, accepts, late).fates)
  {
    hide OnData, NewFates;
    accepts := if false in s.fates then TakesAll else AllButFirst;
    NewFatesSize(s.side, s.window, m.s, m.payload, accepts);
    AppendedFates(s.fates, NewFates(s.side, s.window, m.s, m.payload, accepts));
  }

  /** The exact condition, at the step that breaks the prefix.  In every run whose output is so far
      the beginning of the stream, the next delivery from a link can leave one that is not if and only
      if the frame is the next one expected, is handled at all, and either a chunk was refused before
      it or the splitter finds the chunk behind it waiting. */
  lemma DeliveryBreaksIff(states: seq<State>, events: seq<Event>, l: nat, late: bool)
    requires IsRun(states, events) && InitialSegment(states[|events|].fates)
    requires l < |states[|events|].links| && states[|events|].links[l] != []
    ensures var s := states[|events|];
            var m := s.links[l][0];
            CanBreak(s, l, late) <==>
              && m.Data? && (!s.reset || late) && m.s == s.window.expected
              && (false in s.fates || (s.side.Splitter? && Succ(m.s) in s.window.pending))
  {
    hide Positions, InitialSegment, NoneAfterRefusal, Receive, Init;
    var s := states[|events|];
    var m := s.links[l][0];
    var t := s.(links := s.links[l := s.links[l][1..]]);
    InitialIff(s.fates);
    if Exposed(s, m, late) {
      var accepts := ExposedBreaks(t, m, late);
      var s' := Receive(t, m, accepts, late);
      InitialIff(s'.fates);
      assert Next(s, Deliver(l, accepts, late), s');
    } else {
      forall accepts, s' | Next(s, Deliver(l, accepts, late), s')
        ensures InitialSegment(s'.fates)
      {
        UnexposedKeeps(t, m, accepts, late);
        InitialIff(s'.fates);
      }
    }
  }

  /** In every run, once the sender is done and every link is empty, and no link died and no
      reset happened, the whole stream has been delivered. */
  lemma CompleteDelivery(states: seq<State>, events: seq<Event>, i: nat)
    requires IsRun(states, events) && i < |states|
    requires var s := states[i];
             && s.finished && !s.lost && !s.reset
             && forall l :: 0 <= l < |s.links| ==> s.links[l] == []
    ensures var s := states[i];
            && s.output == s.sent
            && s.window.pending == map[]
            && s.window.expected == s.finSeq == |s.sent| + 1
  {
    RunInv(states, events, i);
    PrefixDelivery(states, events, i);
    var s := states[i];
    assert forall m: Msg :: !InFlight(s.links, m);
    assert s.window.expected > |s.sent| || s.window.Has(s.window.expected);
    assert s.sent[..|s.sent|] == s.sent;
  }

  // ----- a handler that outlives the reset

  predicate TakesAll(i: nat) {
    true
  }

  predicate TakesNone(i: nat) {
    false
  }

  lemma OneChunk(w: Window, n: u64, chunk: Bytes, output: seq<Bytes>)
    requires w.pending == map[] && n == w.expected < U64_MAX
    ensures var w' := w.(expected := n + 1);
            && Pushed(w, n, chunk) == (w', PushResult([chunk], true, false))
            && OnData(Reassembler, w, output, n, chunk, TakesAll) == Reception(w', output + [chunk], false)
            && OnData(Reassembler, w, output, n, chunk, TakesNone) == Reception(w', output, true)
            && Fates(Reassembler, 1, 0, TakesAll) == [true] && Fates(Reassembler, 1, 0, TakesNone) == [false]
  {
    assert Drain(n + 1, w.pending) == Drained([], n + 1, map[]);
    assert [chunk] + [] == [chunk];
    assert output + [] == output;
    assert Offer(Reassembler, [chunk], 1, TakesAll) == Offered([], false);
    assert Fates(Reassembler, 1, 1, TakesAll) == [];
  }

  /** The reassembler drops the reorder lock before it removes the connection.  A handler of another
      link that already holds the connection then pushes the next chunk, and a channel that has
      drained meanwhile takes it: the target gets chunk 2 without chunk 1. */
  lemma LateHandlerGaps() returns (states: seq<State>, events: seq<Event>)
    ensures IsRun(states, events)
    ensures var s := states[|events|];
            s.side.Reassembler? && s.reset && s.sent == [[7], [8]] && s.output == [[8]]
  {
    hide Pushed, OnData, Fates;
    var w := Fresh(MAX_REORDER_BYTES);
    var w1, w2 := w.(expected := 2), w.(expected := 3);
    var m1, m2 := Data(1, [7]), Data(2, [8]);
    OneChunk(w, 1, [7], []);
    OneChunk(w1, 2, [8], []);
    var s0 := State(Reassembler, [], false, [[], []], false, w, [], [], 0, false);
    var s1 := s0.(sent := [[7]], links := [[m1], []]);
    var s2 := s0.(sent := [[7], [8]], links := [[m1], [m2]]);
    var s3 := s2.(links := [[], [m2]], window := w1, fates := [false], reset := true);
    var s4 := s3.(links := [[], []], window := w2, output := [[8]], fates := [false, true]);
    states := [s0, s1, s2, s3, s4];
    events := [SendData(0, [7]), SendData(1, [8]), Deliver(0, TakesNone, false), Deliver(1, TakesAll, true)];
    assert [] + [m1] == [m1] && [] + [m2] == [m2] && [m1][1..] == [] && [m2][1..] == [];
    assert s1.links == s0.links[0 := [m1]] && s2.links == s1.links[1 := [m2]];
    assert s3.links == s2.links[0 := []] && s4.links == s3.links[1 := []];
    assert [] + [false] == [false] && [false] + [true] == [false, true];
    assert [] + [[8]] == [[8]];
    assert s1.sent == s0.sent + [[7]] && s2.sent == s1.sent + [[8]];
    assert Next(s0, events[0], s1) && Next(s1, events[1], s2);
    assert Next(s2, events[2], s3) && Next(s3, events[3], s4);
  }
}
