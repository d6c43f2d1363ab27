/** Half-close of the egress write side at the grain of single atomic operations: any number of
    normal closers and the force timer race on a three-valued atomic, while DATA handlers fill
    the reorder window and the writer task empties the egress channel. */
module HalfClose {
  import opened Wire
  import opened Reorder
  import opened Receiver
  import D = Delivery

  /** Where a normal `close_write_half` call stands. */
  datatype Pc =
    | Started                 // about to compare-exchange 0 -> 1
    | Won                     // holds the closing state, about to load fin_seq
    | Loaded(fin: nat)        // about to ask the reorder window
    | Incomplete(fin: nat)    // about to compare-exchange 1 -> 0
    | Complete(fin: nat)      // about to store 2
    | Stored                  // about to notify the writer
    | Done

  /** The atomics and the Notify that the closers and the force timer share. */
  datatype Closing = Closing(
    finReceived: bool,
    finSeq: nat,               // 0 until stored
    hc: nat,                   // 0 open, 1 closing, 2 closed
    closers: map<nat, Pc>,
    permit: bool,              // the half_close Notify holds a wakeup
    timerOwes: bool,           // the force timer has swapped and is about to notify
    forced: bool)

  datatype CloseOp =
    | FinFlag                  // swap fin_received
    | FinStore                 // store fin_seq
    | Start(id: nat) | Cas(id: nat) | Load(id: nat) | Check(id: nat)
    | Rollback(id: nat) | Store(id: nat) | Notify(id: nat)
    | ForceSwap | ForceNotify

  ghost predicate At(c: Closing, id: nat, pc: Pc) {
    id in c.closers && c.closers[id] == pc
  }

  ghost function Move(c: Closing, id: nat, pc: Pc): Closing {
    c.(closers := c.closers[id := pc])
  }

  /** One atomic operation; `fin` is the number the FIN carries, `w` the reorder window. */
  ghost predicate CloseStep(c: Closing, op: CloseOp, fin: nat, w: Window, c': Closing) {
    match op
    case FinFlag => !c.finReceived && c' == c.(finReceived := true)
    case FinStore => c.finReceived && c.finSeq == 0 && c' == c.(finSeq := fin)
    case Start(id) => c.finReceived && id !in c.closers && c' == Move(c, id, Started)
    case Cas(id) =>
      && At(c, id, Started)
      && c' == if c.hc == 0 then Move(c, id, Won).(hc := 1) else Move(c, id, Done)
    case Load(id) => At(c, id, Won) && c' == Move(c, id, Loaded(c.finSeq))
    case Check(id) =>
      && id in c.closers && c.closers[id].Loaded?
      && var f := c.closers[id].fin;
         c' == Move(c, id, if w.expected >= f then Complete(f) else Incomplete(f))
    case Rollback(id) =>
      && id in c.closers && c.closers[id].Incomplete?
      && c' == Move(c, id, Done).(hc := if c.hc == 1 then 0 else c.hc)
    case Store(id) => id in c.closers && c.closers[id].Complete? && c' == Move(c, id, Stored).(hc := 2)
    case Notify(id) => At(c, id, Stored) && c' == Move(c, id, Done).(permit := true)
    case ForceSwap => c.finReceived && c' == c.(hc := 2, forced := true, timerOwes := c.timerOwes || c.hc != 2)
    case ForceNotify => c.timerOwes && c' == c.(timerOwes := false, permit := true)
  }

  datatype Writer = Writing | Draining | ShutDown

  /** The egress writer task and the end of the connection. */
  datatype Sink = Sink(
    written: nat,              // how many accepted chunks the writer has written
    writer: Writer,
    writeFailed: bool,
    eof: bool,                 // the target closed its side
    dropped: bool)             // finish_if_done removed the connection

  datatype SinkOp =
    Write | WriteFails | HalfCloseSignal | DrainDone | ChannelClosed | WriterCancelled | TargetEof | Finish

  datatype State = State(
    sent: seq<Bytes>,          // the splitter's whole stream; its FIN carries |sent| + 1
    window: Window,
    output: seq<Bytes>,        // chunks accepted by the egress channel
    cancelled: bool,           // the connection was reset
    c: Closing,
    k: Sink)

  ghost predicate SinkStep(s: State, op: SinkOp, k': Sink) {
    match op
    case Write => !s.k.writer.ShutDown? && s.k.written < |s.output| && k' == s.k.(written := s.k.written + 1)
    case WriteFails =>
      !s.k.writer.ShutDown? && s.k.written < |s.output| && k' == s.k.(writer := ShutDown, writeFailed := true)
    case HalfCloseSignal => s.k.writer.Writing? && s.c.permit && k' == s.k.(writer := Draining)
    case DrainDone => s.k.writer.Draining? && s.k.written == |s.output| && k' == s.k.(writer := ShutDown)
    case ChannelClosed =>
      s.k.writer.Writing? && s.k.dropped && s.k.written == |s.output| && k' == s.k.(writer := ShutDown)
    case WriterCancelled => s.cancelled && !s.k.writer.ShutDown? && k' == s.k.(writer := ShutDown)
    case TargetEof => k' == s.k.(eof := true)
    case Finish => s.c.finReceived && s.k.eof && s.c.hc == 2 && k' == s.k.(dropped := true)
  }

  datatype Event =
    | Push(n: u64, accepts: nat -> bool)    // one DATA frame, under the reorder lock
    | Cancel
    | Op(op: CloseOp)
    | Io(io: SinkOp)

  ghost predicate Init(s: State) {
    && |s.sent| + 1 < U64_MAX
    && s.window == Fresh(s.window.maxBytes) && s.output == [] && !s.cancelled
    && s.c == Closing(false, 0, 0, map[], false, false, false)
    && s.k == Sink(0, Writing, false, false, false)
  }

  ghost predicate Next(s: State, e: Event, s': State) {
    match e
    case Push(n, accepts) =>
      && 1 <= n <= |s.sent|
      && var r := OnData(Reassembler, s.window, s.output, n, s.sent[n - 1], accepts);
         s' == s.(window := r.window, output := r.output, cancelled := s.cancelled || r.reset)
    case Cancel => s' == s.(cancelled := true)
    case Op(op) => CloseStep(s.c, op, |s.sent| + 1, s.window, s'.c) && s' == s.(c := s'.c)
    case Io(op) =>
      && SinkStep(s, op, s'.k)
      && s' == s.(k := s'.k, c := if op.HalfCloseSignal? then s.c.(permit := false) else s.c)
  }

  ghost predicate IsRun(states: seq<State>, events: seq<Event>) {
    && |states| == |events| + 1
    && Init(states[0])
    && forall i {:trigger events[i]} :: 0 <= i < |events| ==> Next(states[i], events[i], states[i + 1])
  }

  // ----- the automaton

  /** Between winning the 0 -> 1 exchange and giving up or closing. */
  predicate Evaluates(pc: Pc) {
    pc.Won? || pc.Loaded? || pc.Incomplete? || pc.Complete?
  }

  ghost predicate Evaluating(c: Closing, id: nat) {
    id in c.closers && Evaluates(c.closers[id])
  }

  ghost predicate Automaton(c: Closing, expected: nat) {
    && c.hc <= 2
    && (c.hc == 0 ==> forall i :: !Evaluating(c, i))
    && (forall i, j :: Evaluating(c, i) && Evaluating(c, j) ==> i == j)
    && (c.forced ==> c.hc == 2)
    && (forall i :: i in c.closers && c.closers[i].Complete? ==> c.closers[i].fin <= expected)
  }

  /** One closer moves on: it evaluates only if it already did or nobody does. */
  lemma MovedAutomaton(c: Closing, id: nat, pc: Pc, hc: nat, expected: nat)
    requires Automaton(c, expected) && hc <= 2 && (c.forced ==> hc == 2)
    requires hc == 0 ==> !Evaluates(pc) && forall i :: Evaluating(c, i) ==> i == id
    requires Evaluates(pc) ==> Evaluating(c, id) || forall i :: !Evaluating(c, i)
    requires pc.Complete? ==> pc.fin <= expected
    ensures Automaton(Move(c, id, pc).(hc := hc), expected)
  {
    var c' := Move(c, id, pc).(hc := hc);
    forall i | Evaluating(c', i)
      ensures i == id || Evaluating(c, i)
    {
    }
  }

  /** The FIN's fields and the wakeups play no part in the automaton. */
  lemma SameAutomaton(c: Closing, c': Closing, expected: nat)
    requires Automaton(c, expected) && c'.closers == c.closers && (c'.hc == c.hc || c'.hc == 2)
    requires c'.forced ==> c.forced || c'.hc == 2
    ensures Automaton(c', expected)
  {
    forall i
      ensures Evaluating(c', i) <==> Evaluating(c, i)
    {
    }
  }

  lemma AutomatonGrows(c: Closing, expected: nat, expected': nat)
    requires Automaton(c, expected) && expected <= expected'
    ensures Automaton(c, expected')
  {
    hide Evaluating;
  }

  /** A closer's next operation, on its own. */
  lemma CloserStepAutomaton(c: Closing, op: CloseOp, fin: nat, w: Window, c': Closing)
    requires Automaton(c, w.expected) && CloseStep(c, op, fin, w, c')
    requires op.Start? || op.Cas? || op.Load? || op.Check? || op.Rollback? || op.Store? || op.Notify?
    ensures Automaton(c', w.expected) && (c.hc == 2 ==> c'.hc == 2)
  {
    assert op.id in c.closers && Evaluates(c.closers[op.id]) ==> Evaluating(c, op.id);
    hide Automaton;
    AutomatonParts(c, w.expected);
    hide Evaluating;
    match op
    case Start(id) => MovedAutomaton(c, id, Started, c.hc, w.expected);
    case Cas(id) =>
      if c.hc == 0 {
        MovedAutomaton(c, id, Won, 1, w.expected);
      } else {
        MovedAutomaton(c, id, Done, c.hc, w.expected);
      }
    case Load(id) => MovedAutomaton(c, id, Loaded(c.finSeq), c.hc, w.expected);
    case Check(id) =>
      var f := c.closers[id].fin;
      MovedAutomaton(c, id, if w.expected >= f then Complete(f) else Incomplete(f), c.hc, w.expected);
    case Rollback(id) => MovedAutomaton(c, id, Done, if c.hc == 1 then 0 else c.hc, w.expected);
    case Store(id) => MovedAutomaton(c, id, Stored, 2, w.expected);
    case Notify(id) =>
      MovedAutomaton(c, id, Done, c.hc, w.expected);
      SameAutomaton(Move(c, id, Done), c', w.expected);
  }

  lemma AutomatonParts(c: Closing, expected: nat)
    requires Automaton(c, expected)
    ensures c.hc <= 2 && (c.forced ==> c.hc == 2) && (c.hc == 0 ==> forall i :: !Evaluating(c, i))
    ensures forall i, j :: Evaluating(c, i) && Evaluating(c, j) ==> i == j
  {
    hide Evaluating;
  }

  lemma CloseStepAutomaton(c: Closing, op: CloseOp, fin: nat, w: Window, c': Closing)
    requires Automaton(c, w.expected) && CloseStep(c, op, fin, w, c')
    ensures Automaton(c', w.expected) && (c.hc == 2 ==> c'.hc == 2)
  {
    hide Automaton;
    match op
    case FinFlag => SameAutomaton(c, c', w.expected);
    case FinStore => SameAutomaton(c, c', w.expected);
    case ForceSwap => SameAutomaton(c, c', w.expected);
    case ForceNotify => SameAutomaton(c, c', w.expected);
    case _ => CloserStepAutomaton(c, op, fin, w, c');
  }

  lemma PushMonotone(w: Window, output: seq<Bytes>, sent: seq<Bytes>, n: u64, accepts: nat -> bool)
    requires D.GenuineWindow(w, sent) && 1 <= n <= |sent|
    ensures var r := OnData(Reassembler, w, output, n, sent[n - 1], accepts);
            && D.GenuineWindow(r.window, sent) && w.expected <= r.window.expected
            && |output| <= |r.output|
            && (!r.reset && output == sent[..w.expected - 1] ==> r.output == sent[..r.window.expected - 1])
  {
    var (w', r) := Pushed(w, n, sent[n - 1]);
    if r.accepted {
      D.PushGenuine(w, sent, n);
      assert |sent[..w'.expected - 1]| >= |sent[..w.expected - 1]|;
      OfferIsPrefix(Reassembler, r.ready, 0, accepts);
      assert r.ready[0..] == r.ready;
    }
  }

  ghost predicate Base(s: State) {
    && D.GenuineWindow(s.window, s.sent)
    && (!s.cancelled ==> s.output == s.sent[..s.window.expected - 1])
    && s.k.written <= |s.output|
    && Automaton(s.c, s.window.expected)
  }

  lemma StepBase(s: State, e: Event, s': State)
    requires Base(s) && Next(s, e, s')
    ensures Base(s') && s'.sent == s.sent && s.window.expected <= s'.window.expected
    ensures s.c.hc == 2 ==> s'.c.hc == 2
  {
    hide OnData, CloseStep, Automaton, D.GenuineWindow;
    match e
    case Push(n, accepts) =>
      PushMonotone(s.window, s.output, s.sent, n, accepts);
      AutomatonGrows(s.c, s.window.expected, s'.window.expected);
    case Cancel =>
    case Op(op) => CloseStepAutomaton(s.c, op, |s.sent| + 1, s.window, s'.c);
    case Io(op) => SameAutomaton(s.c, s'.c, s.window.expected);
  }

  lemma InitBase(s: State)
    requires Init(s)
    ensures Base(s)
  {
    assert D.Known(s.window, s.sent) == map[];
    assert s.sent[..0] == [];
  }

  lemma {:induction false} RunBase(states: seq<State>, events: seq<Event>, i: nat)
    requires IsRun(states, events) && i < |states|
    ensures Base(states[i])
  {
    if i == 0 {
      InitBase(states[0]);
    } else {
      RunBase(states, events, i - 1);
      StepBase(states[i - 1], events[i - 1], states[i]);
    }
  }

  /** Closed is closed: once 2, the atomic is 2 forever, whatever rollbacks are still to come;
      and what the window has delivered only grows. */
  lemma {:induction false} ClosedForever(states: seq<State>, events: seq<Event>, i: nat, j: nat)
    requires IsRun(states, events) && i <= j < |states|
    ensures states[i].c.hc == 2 ==> states[j].c.hc == 2
    ensures states[i].window.expected <= states[j].window.expected
    decreases j
  {
    if i < j {
      ClosedForever(states, events, i, j - 1);
      RunBase(states, events, j - 1);
      StepBase(states[j - 1], events[j - 1], states[j]);
    }
  }

  /** At every moment of every run at most one normal closer is evaluating completeness, and a
      force is never undone. */
  lemma OneEvaluatorAndForceWins(states: seq<State>, events: seq<Event>, i: nat)
    requires IsRun(states, events) && i < |states|
    ensures forall a, b :: Evaluating(states[i].c, a) && Evaluating(states[i].c, b) ==> a == b
    ensures states[i].c.forced ==> forall j :: i <= j < |states| ==> states[j].c.hc == 2
  {
    RunBase(states, events, i);
    if states[i].c.forced {
      forall j | i <= j < |states| ensures states[j].c.hc == 2 {
        ClosedForever(states, events, i, j);
      }
    }
  }

  /** A close by the normal path happens only when the window is complete through the fin_seq
      that closer read, and it stays complete ever after. */
  lemma NormalCloseIsComplete(states: seq<State>, events: seq<Event>, i: nat, j: nat)
    requires IsRun(states, events) && i < j < |states| && events[i].Op? && events[i].op.Store?
    ensures var id := events[i].op.id;
            && id in states[i].c.closers && states[i].c.closers[id].Complete?
            && states[i].c.closers[id].fin <= states[j].window.expected
            && states[j].c.hc == 2
  {
    assert Next(states[i], events[i], states[i + 1]);
    RunBase(states, events, i);
    ClosedForever(states, events, i, j);
    ClosedForever(states, events, i + 1, j);
  }

  // ----- exact end of stream

  /** A closer may load fin_seq now: it is stored, or the window is complete all the same. */
  ghost predicate Harmless(s: State) {
    s.c.finSeq != 0 || s.window.expected == |s.sent| + 1
  }

  /** Loads at positions `from` and later are harmless. */
  ghost predicate HarmlessLoads(states: seq<State>, events: seq<Event>, from: nat)
    requires |states| == |events| + 1
  {
    forall i :: from <= i < |events| && events[i].Op? && events[i].op.Load? ==> Harmless(states[i])
  }

  /** What spoils exact closing. */
  ghost predicate Spoiled(s: State) {
    s.c.forced || s.cancelled || s.k.writeFailed
  }

  /** Closers carry the FIN's own number, or a number that no longer matters. */
  ghost predicate Untorn(c: Closing, fin: nat, expected: nat) {
    && (c.finSeq == 0 || c.finSeq == fin)
    && forall i :: i in c.closers && (c.closers[i].Loaded? || c.closers[i].Incomplete? || c.closers[i].Complete?)
         ==> c.closers[i].fin == fin || expected >= fin
  }

  /** Somebody has closed, is about to wake the writer, or has woken it. */
  ghost predicate Closes(c: Closing) {
    c.hc == 2 || c.permit || c.timerOwes || exists i :: i in c.closers && c.closers[i].Stored?
  }

  lemma UntornMoved(c: Closing, id: nat, pc: Pc, fin: nat, expected: nat)
    requires Untorn(c, fin, expected)
    requires pc.Loaded? || pc.Incomplete? || pc.Complete? ==> pc.fin == fin || expected >= fin
    ensures Untorn(Move(c, id, pc), fin, expected)
  {
  }

  lemma UntornSame(c: Closing, c': Closing, fin: nat, expected: nat)
    requires Untorn(c, fin, expected) && c'.closers == c.closers && (c'.finSeq == c.finSeq || c'.finSeq == fin)
    ensures Untorn(c', fin, expected)
  {
  }

  lemma CloseStepUntorn(c: Closing, op: CloseOp, fin: nat, w: Window, c': Closing)
    requires Untorn(c, fin, w.expected) && CloseStep(c, op, fin, w, c')
    requires op.Load? ==> c.finSeq != 0 || w.expected >= fin
    ensures Untorn(c', fin, w.expected) && (c.forced ==> c'.forced)
  {
    UntornParts(c, fin, w.expected);
    hide Untorn;
    match op
    case FinFlag => UntornSame(c, c', fin, w.expected);
    case FinStore => UntornSame(c, c', fin, w.expected);
    case ForceSwap => UntornSame(c, c', fin, w.expected);
    case ForceNotify => UntornSame(c, c', fin, w.expected);
    case Load(id) => UntornMoved(c, id, Loaded(c.finSeq), fin, w.expected);
    case Check(id) =>
      var f := c.closers[id].fin;
      UntornMoved(c, id, if w.expected >= f then Complete(f) else Incomplete(f), fin, w.expected);
    case _ =>
      var pc := c'.closers[op.id];
      UntornMoved(c, op.id, pc, fin, w.expected);
      UntornSame(Move(c, op.id, pc), c', fin, w.expected);
  }

  lemma UntornParts(c: Closing, fin: nat, expected: nat)
    requires Untorn(c, fin, expected)
    ensures c.finSeq == 0 || c.finSeq == fin
    ensures forall i :: i in c.closers && c.closers[i].Loaded? ==> c.closers[i].fin == fin || expected >= fin
  {
  }

  lemma CloseStepCloses(c: Closing, op: CloseOp, fin: nat, w: Window, c': Closing)
    requires Untorn(c, fin, w.expected) && Automaton(c, w.expected) && CloseStep(c, op, fin, w, c')
    ensures Closes(c') && !c'.forced ==> Closes(c) || fin <= w.expected
  {
    if Closes(c') && !c'.forced && !Closes(c) {
      assert op.Store?;
    }
  }

  /** Every wakeup of the writer, present or to come, is backed by a complete window. */
  ghost predicate Backed(s: State) {
    && Untorn(s.c, |s.sent| + 1, s.window.expected)
    && (!Spoiled(s) ==>
          && (Closes(s.c) || s.k.dropped || !s.k.writer.Writing? ==> s.window.expected == |s.sent| + 1)
          && (s.k.writer.ShutDown? ==> s.k.written == |s.output|))
  }

  lemma IoBacked(s: State, op: SinkOp, s': State)
    requires Base(s) && Backed(s) && Next(s, Io(op), s')
    ensures Backed(s')
  {
    assert s'.c.closers == s.c.closers && s'.c.hc == s.c.hc && s'.c.forced == s.c.forced;
    assert Closes(s'.c) ==> Closes(s.c);
    assert Untorn(s'.c, |s.sent| + 1, s.window.expected);
  }

  lemma UntornGrows(c: Closing, fin: nat, e: nat, e': nat)
    requires Untorn(c, fin, e) && e <= e'
    ensures Untorn(c, fin, e')
  {
  }

  lemma StepBacked(s: State, e: Event, s': State)
    requires Base(s) && Backed(s) && Next(s, e, s')
    requires e.Op? && e.op.Load? ==> Harmless(s)
    ensures Backed(s')
  {
    hide D.GenuineWindow, Automaton, OnData, CloseStep, SinkStep, Untorn, Closes;
    StepBase(s, e, s');
    D.GenuineRange(s'.window, s.sent);
    match e
    case Push(n, accepts) =>
      assert s'.c == s.c && s'.k == s.k;
      UntornGrows(s.c, |s.sent| + 1, s.window.expected, s'.window.expected);
    case Cancel =>
    case Op(op) =>
      CloseStepUntorn(s.c, op, |s.sent| + 1, s.window, s'.c);
      CloseStepCloses(s.c, op, |s.sent| + 1, s.window, s'.c);
    case Io(op) => IoBacked(s, op, s');
  }

  lemma {:induction false} RunBacked(states: seq<State>, events: seq<Event>, i: nat)
    requires IsRun(states, events) && HarmlessLoads(states, events, 0) && i < |states|
    ensures Backed(states[i])
  {
    hide Next, Base, Backed, Harmless, Init;
    if i == 0 {
      InitBacked(states[0]);
    } else {
      RunBacked(states, events, i - 1);
      RunBase(states, events, i - 1);
      StepBacked(states[i - 1], events[i - 1], states[i]);
    }
  }

  lemma InitBacked(s: State)
    requires Init(s)
    ensures Backed(s)
  {
  }

  /** Exact end of stream: unless the connection was cancelled, force-closed or failed a write,
      the writer shuts its half down only after writing every chunk below fin_seq. */
  lemma ExactEof(states: seq<State>, events: seq<Event>, i: nat)
    requires IsRun(states, events) && HarmlessLoads(states, events, 0) && i < |states|
    requires states[i].k.writer.ShutDown? && !Spoiled(states[i])
    ensures states[i].output == states[i].sent && states[i].k.written == |states[i].sent|
  {
    RunBacked(states, events, i);
    RunBase(states, events, i);
    assert states[i].sent[..|states[i].sent|] == states[i].sent;
  }

  /** The FIN's flag and number are published together. */
  ghost predicate FinPublishedAtOnce(events: seq<Event>) {
    forall i :: 0 <= i < |events| - 1 && events[i] == Op(FinFlag) ==> events[i + 1] == Op(FinStore)
  }

  lemma {:induction false} AtOnceLeavesNoGap(states: seq<State>, events: seq<Event>, i: nat)
    requires IsRun(states, events) && FinPublishedAtOnce(events) && i < |states|
    ensures states[i].c.finSeq == 0 ==> states[i].c.closers == map[]
    ensures states[i].c.finReceived && states[i].c.finSeq == 0 ==> i > 0 && events[i - 1] == Op(FinFlag)
  {
    if i > 0 {
      AtOnceLeavesNoGap(states, events, i - 1);
      assert Next(states[i - 1], events[i - 1], states[i]);
    }
  }

  /** With flag and number published in one step, closing is exact in every run. */
  lemma ExactEofWithAtomicFin(states: seq<State>, events: seq<Event>, i: nat)
    requires IsRun(states, events) && FinPublishedAtOnce(events) && i < |states|
    requires states[i].k.writer.ShutDown? && !Spoiled(states[i])
    ensures states[i].output == states[i].sent && states[i].k.written == |states[i].sent|
  {
    forall n | 0 <= n < |events| && events[n].Op? && events[n].op.Load?
      ensures Harmless(states[n])
    {
      AtOnceLeavesNoGap(states, events, n);
      assert Next(states[n], events[n], states[n + 1]);
    }
    ExactEof(states, events, i);
  }

  predicate AcceptAll(j: nat) {
    true
  }

  lemma FirstChunkPushed(w: Window, w': Window)
    requires w == Fresh(MAX_REORDER_BYTES) && w' == w.(expected := 2)
    ensures OnData(Reassembler, w, [], 1, [7], AcceptAll) == Reception(w', [[7]], false)
  {
    assert Drain(2, map[]) == Drained([], 2, map[]);
    assert [[7]] + [] == [[7]];
    assert Pushed(w, 1, [7]) == (w', PushResult([[7]], true, false));
    assert Offer(Reassembler, [[7]], 1, AcceptAll) == Offered([], false);
    assert Offer(Reassembler, [[7]], 0, AcceptAll) == Offered([[7]], false);
  }

  ghost predicate EndsIn(states: seq<State>, events: seq<Event>, s: State) {
    IsRun(states, events) && states[|events|] == s
  }

  ghost predicate Reachable(s: State) {
    exists states, events :: EndsIn(states, events, s)
  }

  lemma Reach(s: State, e: Event, s': State)
    requires Reachable(s) && Next(s, e, s')
    ensures Reachable(s')
  {
    var states, events :| EndsIn(states, events, s);
    assert EndsIn(states + [s'], events + [e], s');
  }

  lemma ReachOp(s: State, op: CloseOp, c': Closing)
    requires Reachable(s) && CloseStep(s.c, op, |s.sent| + 1, s.window, c')
    ensures Reachable(s.(c := c'))
  {
    Reach(s, Op(op), s.(c := c'));
  }

  /** A closer that starts between the FIN's two stores reads 0 and closes. */
  lemma TornClose(s: State) returns (s': State)
    requires Reachable(s) && s.window.expected == 2 && s.c == Closing(false, 0, 0, map[], false, false, false)
    ensures Reachable(s') && s'.c.hc == 2 && s'.c.permit && !s'.c.forced && s' == s.(c := s'.c)
  {
    var c1 := s.c.(finReceived := true);
    var c2 := Move(c1, 0, Started);
    var c3 := Move(c2, 0, Won).(hc := 1);
    var c4 := Move(c3, 0, Loaded(0));
    var c5 := Move(c4, 0, Complete(0));
    var c6 := Move(c5, 0, Stored).(hc := 2);
    var c7 := Move(c6, 0, Done).(permit := true);
    ReachOp(s, FinFlag, c1);
    ReachOp(s.(c := c1), Start(0), c2);
    ReachOp(s.(c := c2), Cas(0), c3);
    ReachOp(s.(c := c3), Load(0), c4);
    ReachOp(s.(c := c4), Check(0), c5);
    ReachOp(s.(c := c5), Store(0), c6);
    ReachOp(s.(c := c6), Notify(0), c7);
    s' := s.(c := c7);
  }

  lemma TornShutdown(s0: State) returns (s: State)
    requires Reachable(s0) && s0.c.permit && s0.k == Sink(0, Writing, false, false, false) && |s0.output| == 1
    ensures Reachable(s) && s.k == Sink(1, ShutDown, false, false, false)
    ensures s.sent == s0.sent && s.cancelled == s0.cancelled && s.c == s0.c.(permit := false)
  {
    var s1 := s0.(c := s0.c.(permit := false), k := s0.k.(writer := Draining));
    var s2 := s1.(k := s1.k.(written := 1));
    s := s2.(k := s2.k.(writer := ShutDown));
    Reach(s0, Io(HalfCloseSignal), s1);
    Reach(s1, Io(Write), s2);
    Reach(s2, Io(DrainDone), s);
  }

  /** The code publishes the flag first.  In that gap the handler of an earlier DATA frame can
      load fin_seq as 0, find the window complete through 0, and close: the second chunk of a
      two-chunk stream is cut off, with no force, no cancel and no failed write. */
  lemma TornFinTruncates() returns (s: State)
    ensures Reachable(s)
    ensures s.k.writer.ShutDown? && !Spoiled(s) && s.k.written == 1 && |s.sent| == 2
  {
    var w0 := Fresh(MAX_REORDER_BYTES);
    var w1 := w0.(expected := 2);
    var c0 := Closing(false, 0, 0, map[], false, false, false);
    var k0 := Sink(0, Writing, false, false, false);
    var s0 := State([[7], [8]], w0, [], false, c0, k0);
    assert EndsIn([s0], [], s0);
    var s1 := State([[7], [8]], w1, [[7]], false, c0, k0);
    FirstChunkPushed(w0, w1);
    Reach(s0, Push(1, AcceptAll), s1);
    s := TornClose(s1);
    s := TornShutdown(s);
  }

  // ----- exactly when a load is harmful

  /** A stream cut short although nothing forced, cancelled or broke the connection. */
  ghost predicate Truncated(s: State) {
    s.k.writer.ShutDown? && !Spoiled(s) && s.k.written < |s.sent|
  }

  /** A continuation of `s` that begins with closer `id` loading fin_seq and in which every later
      load is harmless. */
  ghost predicate Continuation(states: seq<State>, events: seq<Event>, s: State, id: nat, t: State) {
    && |states| == |events| + 1 && states[0] == s && states[|events|] == t
    && events != [] && events[0] == Op(Load(id))
    && (forall i {:trigger events[i]} :: 0 <= i < |events| ==> Next(states[i], events[i], states[i + 1]))
    && HarmlessLoads(states, events, 1)
  }

  ghost predicate Continues(s: State, id: nat, t: State) {
    exists states, events :: Continuation(states, events, s, id, t)
  }

  ghost predicate CanTruncate(s: State, id: nat) {
    exists t :: Continues(s, id, t) && Truncated(t)
  }

  lemma ContinueLoad(s: State, id: nat, t: State)
    requires Next(s, Op(Load(id)), t)
    ensures Continues(s, id, t)
  {
    assert Continuation([s, t], [Op(Load(id))], s, id, t);
  }

  lemma ContinueStep(s: State, id: nat, t: State, e: Event, t': State)
    requires Continues(s, id, t) && Next(t, e, t') && !(e.Op? && e.op.Load?)
    ensures Continues(s, id, t')
  {
    hide Next, Harmless;
    var states, events :| Continuation(states, events, s, id, t);
    assert Continuation(states + [t'], events + [e], s, id, t');
  }

  lemma ContinueOp(s: State, id: nat, t: State, op: CloseOp, c': Closing)
    requires Continues(s, id, t) && CloseStep(t.c, op, |t.sent| + 1, t.window, c') && !op.Load?
    ensures Continues(s, id, t.(c := c'))
  {
    hide Continues;
    ContinueStep(s, id, t, Op(op), t.(c := c'));
  }

  /** The closer that loaded 0 finds the window complete through 0 and closes. */
  lemma LoadedZeroCloses(s: State, id: nat) returns (t: State)
    requires At(s.c, id, Won) && s.c.finSeq == 0
    ensures Continues(s, id, t) && t.c.permit && t.c.forced == s.c.forced && t == s.(c := t.c)
  {
    hide Continues;
    var c1 := Move(s.c, id, Loaded(0));
    var c2 := Move(c1, id, Complete(0));
    var c3 := Move(c2, id, Stored).(hc := 2);
    var c4 := Move(c3, id, Done).(permit := true);
    ContinueLoad(s, id, s.(c := c1));
    ContinueOp(s, id, s.(c := c1), Check(id), c2);
    ContinueOp(s, id, s.(c := c2), Store(id), c3);
    ContinueOp(s, id, s.(c := c3), Notify(id), c4);
    t := s.(c := c4);
  }

  /** A draining writer can empty the channel. */
  lemma {:induction false} DrainContinues(s: State, id: nat, t: State)
    requires Continues(s, id, t) && t.k.writer.Draining? && t.k.written <= |t.output|
    ensures Continues(s, id, t.(k := t.k.(written := |t.output|)))
    decreases |t.output| - t.k.written
  {
    hide Continues;
    if t.k.written < |t.output| {
      var t' := t.(k := t.k.(written := t.k.written + 1));
      ContinueStep(s, id, t, Io(Write), t');
      DrainContinues(s, id, t');
    } else {
      assert t.(k := t.k.(written := |t.output|)) == t;
    }
  }

  /** From any unspoiled state, a load of the number before it is stored, with the window still
      incomplete, can cut the stream. */
  lemma HarmfulLoadTruncates(s: State, id: nat)
    requires Base(s) && !Spoiled(s) && s.k.writer.Writing? && At(s.c, id, Won) && !Harmless(s)
    ensures CanTruncate(s, id)
  {
    hide Continues, Automaton;
    var t := LoadedZeroCloses(s, id);
    var t1 := t.(c := t.c.(permit := false), k := t.k.(writer := Draining));
    ContinueStep(s, id, t, Io(HalfCloseSignal), t1);
    DrainContinues(s, id, t1);
    var t2 := t1.(k := t1.k.(written := |t1.output|));
    var t3 := t2.(k := t2.k.(writer := ShutDown));
    ContinueStep(s, id, t2, Io(DrainDone), t3);
    assert |s.output| < |s.sent|;
    assert Truncated(t3);
  }

  /** A run and a continuation that begins with a harmless load make a run with harmless loads. */
  lemma JoinedRun(states: seq<State>, events: seq<Event>, more: seq<State>, moreEvents: seq<Event>, id: nat, t: State)
    requires IsRun(states, events) && HarmlessLoads(states, events, 0)
    requires Continuation(more, moreEvents, states[|events|], id, t) && Harmless(states[|events|])
    ensures var all, allEvents := states + more[1..], events + moreEvents;
            IsRun(all, allEvents) && HarmlessLoads(all, allEvents, 0) && all[|allEvents|] == t
  {
    hide Next, Harmless, Init;
    var all, allEvents := states + more[1..], events + moreEvents;
    var n := |events|;
    forall i | n <= i < |all|
      ensures all[i] == more[i - n]
    {
    }
    forall i | 0 <= i < |allEvents|
      ensures Next(all[i], allEvents[i], all[i + 1])
      ensures allEvents[i].Op? && allEvents[i].op.Load? ==> Harmless(all[i])
    {
      if i < n {
        assert allEvents[i] == events[i];
      } else {
        assert allEvents[i] == moreEvents[i - n];
      }
    }
  }

  /** The exact condition.  In an unspoiled state reached without a harmful load, a closer about to
      load fin_seq can bring about a truncated stream if and only if the number is not stored yet
      and the window is still incomplete at that moment. */
  lemma LoadTruncatesIff(states: seq<State>, events: seq<Event>, id: nat)
    requires IsRun(states, events) && HarmlessLoads(states, events, 0)
    requires !Spoiled(states[|events|]) && At(states[|events|].c, id, Won)
    ensures var s := states[|events|];
            CanTruncate(s, id) <==> s.c.finSeq == 0 && s.window.expected <= |s.sent|
  {
    hide Continues, Next, Init, Automaton, Untorn;
    var s := states[|events|];
    RunBase(states, events, |events|);
    RunBacked(states, events, |events|);
    D.GenuineRange(s.window, s.sent);
    if Harmless(s) {
      HarmlessLoadIsExact(states, events, id);
    } else {
      HarmfulLoadTruncates(s, id);
    }
  }

  lemma HarmlessLoadIsExact(states: seq<State>, events: seq<Event>, id: nat)
    requires IsRun(states, events) && HarmlessLoads(states, events, 0) && Harmless(states[|events|])
    ensures !CanTruncate(states[|events|], id)
  {
    hide Next, Init, Harmless;
    var s := states[|events|];
    forall t | Continues(s, id, t)
      ensures !Truncated(t)
    {
      var more, moreEvents :| Continuation(more, moreEvents, s, id, t);
      JoinedRun(states, events, more, moreEvents, id, t);
      var all, allEvents := states + more[1..], events + moreEvents;
      if t.k.writer.ShutDown? && !Spoiled(t) {
        ExactEof(all, allEvents, |allEvents|);
      }
    }
  }

  // ----- nothing gets stuck

  ghost predicate SomeoneIs(c: Closing, stored: bool) {
    exists i :: i in c.closers && if stored then c.closers[i].Stored? else Evaluates(c.closers[i])
  }

  /** The closing state has an owner, and a closed write half a wakeup for the writer: still to be
      given, given, or taken. */
  ghost predicate Unstuck(s: State) {
    && s.c.hc <= 2
    && (s.c.hc == 1 ==> SomeoneIs(s.c, false))
    && (s.c.hc == 2 ==> SomeoneIs(s.c, true) || s.c.timerOwes || s.c.permit || !s.k.writer.Writing?)
  }

  /** A closer other than the one that moves stays where it is. */
  lemma StillThere(c: Closing, id: nat, pc: Pc, stored: bool)
    requires SomeoneIs(c, stored)
    requires id in c.closers ==> !(if stored then c.closers[id].Stored? else Evaluates(c.closers[id]))
    ensures SomeoneIs(Move(c, id, pc), stored)
  {
    var i :| i in c.closers && if stored then c.closers[i].Stored? else Evaluates(c.closers[i]);
    assert i in Move(c, id, pc).closers && Move(c, id, pc).closers[i] == c.closers[i];
  }

  lemma NowThere(c: Closing, id: nat, pc: Pc, stored: bool)
    requires if stored then pc.Stored? else Evaluates(pc)
    ensures SomeoneIs(Move(c, id, pc), stored)
  {
    assert Move(c, id, pc).closers[id] == pc;
  }

  lemma SameSomeone(c: Closing, c': Closing, stored: bool)
    requires c'.closers == c.closers
    ensures SomeoneIs(c', stored) == SomeoneIs(c, stored)
  {
  }

  lemma CloserUnstuck(s: State, op: CloseOp, s': State)
    requires Unstuck(s) && Automaton(s.c, s.window.expected) && Next(s, Op(op), s')
    ensures Unstuck(s')
  {
    hide Automaton, SomeoneIs;
    AutomatonParts(s.c, s.window.expected);
    if op.FinFlag? || op.FinStore? || op.ForceSwap? || op.ForceNotify? {
      SameSomeone(s.c, s'.c, true);
      SameSomeone(s.c, s'.c, false);
    } else {
      var id, pc := op.id, s'.c.closers[op.id];
      var m := Move(s.c, id, pc);
      SameSomeone(m, s'.c, true);
      SameSomeone(m, s'.c, false);
      if Evaluates(pc) {
        NowThere(s.c, id, pc, false);
      } else if s.c.hc == 1 && s'.c.hc == 1 {
        StillThere(s.c, id, pc, false);
      }
      if pc.Stored? {
        NowThere(s.c, id, pc, true);
      } else if SomeoneIs(s.c, true) && !op.Notify? {
        StillThere(s.c, id, pc, true);
      }
    }
  }

  lemma StepUnstuck(s: State, e: Event, s': State)
    requires Unstuck(s) && Automaton(s.c, s.window.expected) && Next(s, e, s')
    ensures Unstuck(s')
  {
    match e
    case Op(op) => CloserUnstuck(s, op, s');
    case Push(_, _) => assert s'.c == s.c && s'.k == s.k;
    case Cancel =>
    case Io(op) => assert s'.c.closers == s.c.closers;
  }

  lemma {:induction false} RunUnstuck(states: seq<State>, events: seq<Event>, i: nat)
    requires IsRun(states, events) && i < |states|
    ensures Unstuck(states[i])
  {
    if i > 0 {
      hide Next, Automaton, Unstuck;
      RunUnstuck(states, events, i - 1);
      RunBase(states, events, i - 1);
      StepUnstuck(states[i - 1], events[i - 1], states[i]);
    }
  }

  /** In every reachable state a write half in the closing state has a closer at work on it, so it is
      never left there; a closed one has a wakeup for the writer that is still owed, pending or taken,
      so the writer always learns of it; and the force timer closes whatever it finds. */
  lemma NothingStuck(states: seq<State>, events: seq<Event>, i: nat)
    requires IsRun(states, events) && i < |states|
    ensures var c := states[i].c;
            && (c.hc == 1 ==> exists j :: Evaluating(c, j))
            && (c.hc == 2 ==>
                  || (exists j :: j in c.closers && c.closers[j].Stored?)
                  || c.timerOwes || c.permit || !states[i].k.writer.Writing?)
    ensures i < |events| && events[i] == Op(ForceSwap) ==> states[i + 1].c.hc == 2
  {
    RunUnstuck(states, events, i);
    if states[i].c.hc == 1 {
      var j :| j in states[i].c.closers && Evaluates(states[i].c.closers[j]);
      assert Evaluating(states[i].c, j);
    }
    if i < |events| {
      assert Next(states[i], events[i], states[i + 1]);
    }
  }

  /** A closer that runs undisturbed decides rightly: it closes and wakes the writer exactly when the
      window is complete through the FIN's number, and otherwise leaves the write half open. */
  lemma LoneCloserDecides(s: State, id: nat) returns (s': State)
    requires Reachable(s) && s.c.finReceived && s.c.hc == 0 && id !in s.c.closers
    ensures Reachable(s') && s' == s.(c := s'.c) && s'.c.forced == s.c.forced
    ensures if s.window.expected >= s.c.finSeq then s'.c.hc == 2 && s'.c.permit
            else s'.c.hc == 0 && s'.c.permit == s.c.permit && At(s'.c, id, Done)
  {
    hide Reachable;
    var f := s.c.finSeq;
    var c1 := Move(s.c, id, Started);
    var c2 := Move(c1, id, Won).(hc := 1);
    var c3 := Move(c2, id, Loaded(f));
    ReachOp(s, Start(id), c1);
    ReachOp(s.(c := c1), Cas(id), c2);
    ReachOp(s.(c := c2), Load(id), c3);
    if s.window.expected >= f {
      var c4 := Move(c3, id, Complete(f));
      var c5 := Move(c4, id, Stored).(hc := 2);
      var c6 := Move(c5, id, Done).(permit := true);
      ReachOp(s.(c := c3), Check(id), c4);
      ReachOp(s.(c := c4), Store(id), c5);
      ReachOp(s.(c := c5), Notify(id), c6);
      s' := s.(c := c6);
    } else {
      var c4 := Move(c3, id, Incomplete(f));
      var c5 := Move(c4, id, Done).(hc := 0);
      ReachOp(s.(c := c3), Check(id), c4);
      ReachOp(s.(c := c4), Rollback(id), c5);
      s' := s.(c := c5);
    }
  }

  lemma {:induction false} DrainReached(s: State)
    requires Reachable(s) && s.k.writer.Draining? && s.k.written <= |s.output|
    ensures Reachable(s.(k := s.k.(written := |s.output|)))
    decreases |s.output| - s.k.written
  {
    hide Reachable;
    if s.k.written < |s.output| {
      var s' := s.(k := s.k.(written := s.k.written + 1));
      Reach(s, Io(Write), s');
      DrainReached(s');
    } else {
      assert s.(k := s.k.(written := |s.output|)) == s;
    }
  }

  /** A complete stream can end as it should: from any state whose window is complete through the
      stored FIN, with the write half open and a closer to come, the writer can shut down after every
      chunk with no force, cancel or failed write. */
  lemma CompleteStreamCanEnd(states: seq<State>, events: seq<Event>, id: nat) returns (t: State)
    requires IsRun(states, events)
    requires var s := states[|events|];
             && !Spoiled(s) && s.k.writer.Writing? && s.c.finReceived && s.c.hc == 0 && id !in s.c.closers
             && s.c.finSeq == s.window.expected == |s.sent| + 1
    ensures Reachable(t) && t.k.writer.ShutDown? && !Spoiled(t)
    ensures t.sent == states[|events|].sent && t.k.written == |t.sent| && t.output == t.sent
  {
    var s := states[|events|];
    RunBase(states, events, |events|);
    assert EndsIn(states, events, s);
    hide Reachable, Automaton, D.GenuineWindow;
    assert s.sent[..|s.sent|] == s.sent;
    var s1 := LoneCloserDecides(s, id);
    var s2 := s1.(c := s1.c.(permit := false), k := s1.k.(writer := Draining));
    Reach(s1, Io(HalfCloseSignal), s2);
    DrainReached(s2);
    var s3 := s2.(k := s2.k.(written := |s2.output|));
    t := s3.(k := s3.k.(writer := ShutDown));
    Reach(s3, Io(DrainDone), t);
  }
}
