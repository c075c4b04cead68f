/**
 A connection's outbox, taken by long-polls until the upgrade and by WebSocket writers after it.

 Every section between two suspension points runs alone on the connection's strand; it is one step.
 Polls and writers with nothing to do park on one timer, and setting the timer wakes them all.
 */
module Connection {
  import opened Options
  import opened Payload
  import opened Text

  /** Where a WebSocket's writer stands. */
  datatype Writer = Running | Parked | Sending(packet: string) | SendingClose | Stopped

  /** What a poll is answered, or that it parks: the packets waiting, NOOP or CLOSE. */
  datatype Answer = Parks | Packets(packets: seq<string>) | Noop | Close

  /** The body of an answer. */
  function BodyOf(a: Answer): Option<string> {
    match a
    case Parks => None
    case Packets(packets) => Some(EncodedPayload(packets))
    case Noop => Some(NOOP)
    case Close => Some(CLOSE)
  }

  /**
   The fields of the connection, the polls and writers in flight, and the history: the packets pushed,
   those polls drained, the bodies they went out in, and those writers took.
   */
  datatype Session = Session(outbox: seq<string>, closing: bool, wsMode: bool, wsStop: bool,
                             parkedPolls: nat, runnablePolls: nat, writers: seq<Writer>,
                             pushed: seq<string>, drained: seq<string>, bodies: seq<string>, taken: seq<string>)

  const FRESH := Session([], false, false, false, 0, 0, [], [], [], [], [])

  datatype Event = Push(packet: string) | Enqueue(packet: string) | PollArrives | PollRuns
                 | Upgrade | WriterRuns(w: nat) | WriteDone(w: nat, ok: bool) | WriterCancelled(w: nat)
                 | ReaderExits | Disconnect

  function Woken(writers: seq<Writer>): (r: seq<Writer>)
    ensures |r| == |writers|
    ensures forall i :: 0 <= i < |r| ==> r[i] == if writers[i] == Parked then Running else writers[i]
  {
    seq(|writers|, i requires 0 <= i < |writers| => if writers[i] == Parked then Running else writers[i])
  }

  /** Setting the park timer, to whatever time, cancels every wait on it. */
  function Wake(s: Session): Session {
    s.(parkedPolls := 0, runnablePolls := s.runnablePolls + s.parkedPolls, writers := Woken(s.writers))
  }

  /** `push_locked`. */
  function Pushed(s: Session, packet: string): Session {
    Wake(s.(outbox := s.outbox + [packet], pushed := s.pushed + [packet]))
  }

  function AnswerTo(s: Session): Answer {
    if s.wsMode then Noop
    else if s.outbox != [] then Packets(s.outbox)
    else if s.closing then Close
    else Parks
  }

  /** One round of `drain_for_poll`. */
  function Polled(s: Session): Session
    requires s.runnablePolls > 0
  {
    var answer := AnswerTo(s);
    var s := s.(runnablePolls := s.runnablePolls - 1);
    match answer
    case Parks => Wake(s).(parkedPolls := 1)
    case Packets(packets) =>
      s.(outbox := [], drained := s.drained + packets, bodies := s.bodies + [EncodedPayload(packets)])
    case _ => s
  }

  /** One round of `ws_writer`, up to its next suspension. */
  function Written(s: Session, w: nat): Session
    requires w < |s.writers|
  {
    if s.wsStop then s.(writers := s.writers[w := Stopped])
    else if s.outbox != [] then
      s.(outbox := s.outbox[1..], taken := s.taken + [s.outbox[0]], writers := s.writers[w := Sending(s.outbox[0])])
    else if s.closing then
      s.(writers := s.writers[w := SendingClose])
    else Wake(s).(writers := Woken(s.writers)[w := Parked])
  }

  function Step(s: Session, e: Event): Session
    requires Enabled(s, e)
  {
    match e
    case Push(packet) => Pushed(s, packet)
    case Enqueue(packet) => if s.closing then s else Pushed(s, packet)
    case PollArrives => s.(runnablePolls := s.runnablePolls + 1)
    case PollRuns => Polled(s)
    case Upgrade =>
      if s.closing then s else Wake(s.(wsMode := true, wsStop := false)).(writers := Woken(s.writers) + [Running])
    case WriterRuns(w) => Written(s, w)
    case WriteDone(w, ok) =>
      if s.writers[w].Sending? && ok then s.(writers := s.writers[w := Running])
      else s.(wsStop := true, writers := s.writers[w := Stopped])
    case WriterCancelled(w) => s.(writers := s.writers[w := Stopped])
    case ReaderExits => Wake(s.(wsStop := true))
    case Disconnect => if s.closing then s else Wake(s.(closing := true))
  }

  predicate Enabled(s: Session, e: Event) {
    match e
    case PollRuns => s.runnablePolls > 0
    case WriterRuns(w) => w < |s.writers| && s.writers[w] == Running
    case WriteDone(w, ok) => w < |s.writers| && (s.writers[w].Sending? || s.writers[w] == SendingClose)
    case WriterCancelled(w) => w < |s.writers|
    case _ => true
  }

  ghost predicate IsRun(states: seq<Session>, events: seq<Event>) {
    && |states| == |events| + 1 && states[0] == FRESH
    && forall i :: 0 <= i < |events| ==> Enabled(states[i], events[i]) && states[i + 1] == Step(states[i], events[i])
  }

  // ---- Delivery ----

  /** The packets of some poll bodies, as the client decodes them. */
  function Received(bodies: seq<string>): seq<string> {
    if bodies == [] then [] else Received(bodies[..|bodies| - 1]) + DecodedPayload(bodies[|bodies| - 1])
  }

  predicate AllSafe(packets: seq<string>) {
    forall i :: 0 <= i < |packets| ==> WireSafe(packets[i])
  }

  /** Nothing is lost, duplicated or reordered; writers take nothing before the upgrade. */
  ghost predicate Delivers(s: Session) {
    && s.drained + s.taken + s.outbox == s.pushed
    && (!s.wsMode ==> s.taken == [])
  }

  /** Whoever is parked has nothing to do: no wake-up is lost. */
  ghost predicate ParkedIdle(s: Session) {
    && (s.parkedPolls > 0 ==> s.outbox == [] && !s.closing && !s.wsMode)
    && (Parked in s.writers ==> s.outbox == [] && !s.closing && s.wsMode)
  }

  ghost predicate Invariant(s: Session) {
    Delivers(s) && ParkedIdle(s) && (s.writers != [] ==> s.wsMode)
  }

  lemma ReceivedAppend(bodies: seq<string>, body: string)
    ensures Received(bodies + [body]) == Received(bodies) + DecodedPayload(body)
  {
    assert (bodies + [body])[..|bodies|] == bodies;
  }

  lemma PollDelivers(s: Session)
    requires Delivers(s) && s.runnablePolls > 0
    ensures Delivers(Polled(s))
  {
    if AnswerTo(s).Packets? {
      assert s.taken == [];
      assert s.drained + s.outbox + [] + [] == s.drained + [] + s.outbox;
    }
  }

  lemma WriterDelivers(s: Session, w: nat)
    requires Delivers(s) && w < |s.writers| && s.wsMode
    ensures Delivers(Written(s, w))
  {
    if !s.wsStop && s.outbox != [] {
      assert s.outbox == [s.outbox[0]] + s.outbox[1..];
    }
  }

  lemma StepDelivers(s: Session, e: Event)
    requires Enabled(s, e) && Delivers(s) && (s.writers != [] ==> s.wsMode)
    ensures Delivers(Step(s, e))
  {
    match e
    case PollRuns => PollDelivers(s);
    case WriterRuns(w) => WriterDelivers(s, w);
    case _ =>
  }

  /** The bodies carry what was drained, as far as bodies can carry it. */
  lemma StepReceives(s: Session, e: Event)
    requires Enabled(s, e) && (AllSafe(s.drained) ==> Received(s.bodies) == s.drained)
    ensures AllSafe(Step(s, e).drained) ==> Received(Step(s, e).bodies) == Step(s, e).drained
  {
    hide EncodedPayload, DecodedPayload, Received;
    if e.PollRuns? && AnswerTo(s).Packets? && AllSafe(Step(s, e).drained) {
      var all := s.drained + s.outbox;
      assert forall i :: 0 <= i < |s.drained| ==> s.drained[i] == all[i];
      forall p | p in s.outbox ensures WireSafe(p) {
        var i :| 0 <= i < |s.outbox| && s.outbox[i] == p;
        assert all[|s.drained| + i] == p;
      }
      DecodeEncode(s.outbox);
      ReceivedAppend(s.bodies, EncodedPayload(s.outbox));
    }
  }

  lemma StepParksIdle(s: Session, e: Event)
    requires Enabled(s, e) && ParkedIdle(s) && (s.writers != [] ==> s.wsMode)
    ensures ParkedIdle(Step(s, e)) && (Step(s, e).writers != [] ==> Step(s, e).wsMode)
  {
    var s' := Step(s, e);
    if Parked in s'.writers && !(e.WriterRuns? && s'.writers[e.w] == Parked) {
      var i :| 0 <= i < |s'.writers| && s'.writers[i] == Parked;
      assert i < |s.writers| && s.writers[i] == Parked;
    }
  }

  lemma {:induction false} RunKeepsInvariant(states: seq<Session>, events: seq<Event>, i: nat)
    requires IsRun(states, events) && i <= |events|
    ensures Invariant(states[i])
  {
    if i > 0 {
      RunKeepsInvariant(states, events, i - 1);
      StepDelivers(states[i - 1], events[i - 1]);
      StepParksIdle(states[i - 1], events[i - 1]);
    }
  }

  /**
   Over every run with polls, upgrades, failed writes and a close: the packets polls drained, then those
   the writers took, then the outbox, are the packets pushed, in order.
   */
  lemma EverythingDelivered(states: seq<Session>, events: seq<Event>, i: nat)
    requires IsRun(states, events) && i <= |events|
    ensures states[i].drained + states[i].taken + states[i].outbox == states[i].pushed
  {
    RunKeepsInvariant(states, events, i);
  }

  // ---- The same, told from the events alone ----

  /** The packets a run is given: all that are pushed, and those enqueued before the first disconnect. */
  function Accepted(events: seq<Event>): seq<string> {
    if events == [] then []
    else
      var n := |events| - 1;
      Accepted(events[..n]) +
      match events[n]
      case Push(packet) => [packet]
      case Enqueue(packet) => if Disconnect in events[..n] then [] else [packet]
      case _ => []
  }

  /** The packets a run hands to a transport: in the answer to a poll, or in a write begun. */
  ghost function HandedOut(states: seq<Session>, events: seq<Event>, i: nat): seq<string>
    requires IsRun(states, events) && i <= |events|
  {
    if i == 0 then []
    else
      HandedOut(states, events, i - 1) +
      match events[i - 1]
      case PollRuns => if AnswerTo(states[i - 1]).Packets? then AnswerTo(states[i - 1]).packets else []
      case WriterRuns(w) =>
        if w < |states[i].writers| && states[i].writers[w].Sending? then [states[i].writers[w].packet] else []
      case _ => []
  }

  /** The polls that have arrived. */
  function Arrivals(events: seq<Event>): nat {
    if events == [] then 0
    else Arrivals(events[..|events| - 1]) + if events[|events| - 1].PollArrives? then 1 else 0
  }

  /** The upgrades before the first disconnect. */
  function Upgrades(events: seq<Event>): nat {
    if events == [] then 0
    else
      var n := |events| - 1;
      Upgrades(events[..n]) + if events[n].Upgrade? && Disconnect !in events[..n] then 1 else 0
  }

  /** The polls of a run that have been answered. */
  ghost function Answered(states: seq<Session>, events: seq<Event>, i: nat): nat
    requires IsRun(states, events) && i <= |events|
  {
    if i == 0 then 0
    else Answered(states, events, i - 1) + if events[i - 1].PollRuns? && !AnswerTo(states[i - 1]).Parks? then 1 else 0
  }

  lemma PrefixAt(events: seq<Event>, i: nat)
    requires 0 < i <= |events|
    ensures events[..i] != [] && events[..i][..i - 1] == events[..i - 1] && events[..i][i - 1] == events[i - 1]
    ensures Disconnect in events[..i] <==> Disconnect in events[..i - 1] || events[i - 1] == Disconnect
  {
    assert events[..i] == events[..i - 1] + [events[i - 1]];
  }

  /** A connection is closing from the first disconnect on. */
  lemma {:induction false} ClosingIff(states: seq<Session>, events: seq<Event>, i: nat)
    requires IsRun(states, events) && i <= |events|
    ensures states[i].closing <==> Disconnect in events[..i]
  {
    hide Step;
    if i > 0 {
      ClosingIff(states, events, i - 1);
      PrefixAt(events, i);
      StepCountsWriters(states[i - 1], events[i - 1]);
    }
  }

  /** What a run hands to its transports, then what waits in the outbox, is what it was given, in order. */
  lemma {:induction false} GivenIsHandedOut(states: seq<Session>, events: seq<Event>, i: nat)
    requires IsRun(states, events) && i <= |events|
    ensures HandedOut(states, events, i) + states[i].outbox == Accepted(events[..i])
    ensures states[i].drained + states[i].taken + states[i].outbox == Accepted(events[..i])
  {
    hide Step;
    if i > 0 {
      GivenIsHandedOut(states, events, i - 1);
      ClosingIff(states, events, i - 1);
      PrefixAt(events, i);
      RunKeepsInvariant(states, events, i);
      RunKeepsInvariant(states, events, i - 1);
      StepHandsOut(states[i - 1], events[i - 1], HandedOut(states, events, i - 1));
    }
  }

  lemma StepHandsOut(s: Session, e: Event, out: seq<string>)
    requires Enabled(s, e)
    ensures var s' := Step(s, e);
            var now := match e
                       case PollRuns => if AnswerTo(s).Packets? then AnswerTo(s).packets else []
                       case WriterRuns(w) =>
                         if w < |s'.writers| && s'.writers[w].Sending? then [s'.writers[w].packet] else []
                       case _ => [];
            var given := match e
                         case Push(packet) => [packet]
                         case Enqueue(packet) => if s.closing then [] else [packet]
                         case _ => [];
            out + now + s'.outbox == out + s.outbox + given && s'.pushed == s.pushed + given
  {
    if e.WriterRuns? && s.outbox != [] { assert s.outbox == [s.outbox[0]] + s.outbox[1..]; }
  }

  /** After a packet given, an upgrade or a disconnect nothing is left parked; nor does the end of a reader leave any. */
  lemma EventWakes(states: seq<Session>, events: seq<Event>, i: nat)
    requires IsRun(states, events) && i < |events|
    requires events[i].Push? || events[i].ReaderExits?
             || (Disconnect !in events[..i] && (events[i].Enqueue? || events[i].Upgrade? || events[i].Disconnect?))
    ensures states[i + 1].parkedPolls == 0 && Parked !in states[i + 1].writers
  {
    ClosingIff(states, events, i);
  }

  /** Every poll that has arrived is parked, about to run, or answered. */
  lemma {:induction false} PollsConserved(states: seq<Session>, events: seq<Event>, i: nat)
    requires IsRun(states, events) && i <= |events|
    ensures states[i].parkedPolls + states[i].runnablePolls + Answered(states, events, i) == Arrivals(events[..i])
  {
    hide Step;
    if i > 0 {
      PollsConserved(states, events, i - 1);
      PrefixAt(events, i);
      StepConservesPolls(states[i - 1], events[i - 1]);
    }
  }

  lemma StepConservesPolls(s: Session, e: Event)
    requires Enabled(s, e)
    ensures var s', answered := Step(s, e), if e.PollRuns? && !AnswerTo(s).Parks? then 1 else 0;
            s'.parkedPolls + s'.runnablePolls + answered ==
            s.parkedPolls + s.runnablePolls + if e.PollArrives? then 1 else 0
  {}

  /** Every upgrade in time has its writer, and the first makes polls give way to writers. */
  lemma {:induction false} UpgradesCount(states: seq<Session>, events: seq<Event>, i: nat)
    requires IsRun(states, events) && i <= |events|
    ensures |states[i].writers| == Upgrades(events[..i]) && (states[i].wsMode <==> Upgrades(events[..i]) > 0)
  {
    hide Step;
    if i > 0 {
      UpgradesCount(states, events, i - 1);
      ClosingIff(states, events, i - 1);
      PrefixAt(events, i);
      StepCountsWriters(states[i - 1], events[i - 1]);
    }
  }

  lemma StepCountsWriters(s: Session, e: Event)
    requires Enabled(s, e)
    ensures var s', upgraded := Step(s, e), e.Upgrade? && !s.closing;
            |s'.writers| == |s.writers| + (if upgraded then 1 else 0) && (s'.wsMode <==> s.wsMode || upgraded)
            && (s'.closing <==> s.closing || e == Disconnect)
  {}

  /** The body a poll is answered with: after the upgrade "6", else all that waits, or "1" when closing. */
  lemma PollAnswers(s: Session)
    requires s.runnablePolls > 0
    ensures BodyOf(AnswerTo(s)) ==
            if s.wsMode then Some("6")
            else if s.outbox != [] then Some(EncodedPayload(s.outbox))
            else if s.closing then Some("1")
            else None
    ensures var s' := Step(s, PollRuns);
            && s'.parkedPolls == (if BodyOf(AnswerTo(s)) == None then 1 else s.parkedPolls)
            && s'.closing == s.closing && s'.wsMode == s.wsMode
            && s'.outbox == (if s.wsMode then s.outbox else [])
            && s'.drained == s.drained + (if s.wsMode then [] else s.outbox)
  {
    assert s.drained + [] == s.drained;
  }

  /** One round of a writer, by its signals: stop, write the oldest packet, write CLOSE, or park. */
  lemma WriterRounds(s: Session, w: nat)
    requires Enabled(s, WriterRuns(w))
    ensures var s' := Step(s, WriterRuns(w));
            && s'.writers[w] == (if s.wsStop then Stopped else if s.outbox != [] then Sending(s.outbox[0])
                                 else if s.closing then SendingClose else Parked)
            && s'.outbox == (if s.wsStop || s.outbox == [] then s.outbox else s.outbox[1..])
            && s'.taken == s.taken + (if s.wsStop || s.outbox == [] then [] else [s.outbox[0]])
            && s'.wsStop == s.wsStop && s'.closing == s.closing && s'.wsMode == s.wsMode
  {
    assert s.taken + [] == s.taken;
  }

  /** A write that succeeds lets its writer run again; any other end of a write, or of a reader, stops the writers. */
  lemma WritesEnd(s: Session, w: nat, ok: bool)
    requires Enabled(s, WriteDone(w, ok))
    ensures var s' := Step(s, WriteDone(w, ok));
            && s'.writers == s.writers[w := if s.writers[w].Sending? && ok then Running else Stopped]
            && s'.wsStop == (s.wsStop || s.writers[w] == SendingClose || !ok)
            && Step(s, ReaderExits).wsStop && (!s.closing ==> !Step(s, Upgrade).wsStop)
  {}

  /** Once closing, a connection takes no packet to enqueue, no upgrade and no other disconnect. */
  lemma ClosingRefuses(s: Session, packet: string)
    requires s.closing
    ensures Step(s, Enqueue(packet)) == s && Step(s, Upgrade) == s && Step(s, Disconnect) == s
  {}

  /** A writer that is cancelled, and a poll that arrives, concern nobody else. */
  lemma OthersUndisturbed(s: Session, w: nat)
    ensures w < |s.writers| ==> Step(s, WriterCancelled(w)) == s.(writers := s.writers[w := Stopped])
    ensures Step(s, PollArrives) == s.(runnablePolls := s.runnablePolls + 1)
  {}

  lemma {:induction false} BodiesReceive(states: seq<Session>, events: seq<Event>, i: nat)
    requires IsRun(states, events) && i <= |events|
    ensures AllSafe(states[i].drained) ==> Received(states[i].bodies) == states[i].drained
  {
    if i > 0 {
      BodiesReceive(states, events, i - 1);
      StepReceives(states[i - 1], events[i - 1]);
    }
  }

  lemma {:induction false} ReceivedAreSafe(bodies: seq<string>)
    ensures AllSafe(Received(bodies))
  {
    if bodies != [] {
      var n := |bodies| - 1;
      ReceivedAreSafe(bodies[..n]);
      var packets := DecodedPayload(bodies[n]);
      DecodedAreSafe(Split(bodies[n], SEPARATOR));
      assert forall i :: 0 <= i < |packets| ==> packets[i] in packets;
    }
  }

  /** What clients decode from the poll bodies is what polls drained, exactly when bodies can carry those packets. */
  lemma PollsReceive(states: seq<Session>, events: seq<Event>, i: nat)
    requires IsRun(states, events) && i <= |events|
    ensures Received(states[i].bodies) == states[i].drained <==> AllSafe(states[i].drained)
  {
    BodiesReceive(states, events, i);
    ReceivedAreSafe(states[i].bodies);
  }

  /** Once upgraded, always upgraded; and polls take nothing any more. */
  lemma {:induction false} PollsTakeNothingAfterUpgrade(states: seq<Session>, events: seq<Event>, i: nat, j: nat)
    requires IsRun(states, events) && i <= j <= |events| && states[i].wsMode
    ensures states[j].wsMode && states[j].drained == states[i].drained && states[j].bodies == states[i].bodies
  {
    if i < j { PollsTakeNothingAfterUpgrade(states, events, i, j - 1); }
  }

  /** Nobody waits for something that has happened: no wake-up is lost. */
  lemma NobodyWaitsInVain(states: seq<Session>, events: seq<Event>, i: nat)
    requires IsRun(states, events) && i <= |events|
    ensures var s := states[i];
            && (s.parkedPolls > 0 || Parked in s.writers ==> s.outbox == [] && !s.closing)
            && (s.parkedPolls > 0 ==> !s.wsMode)
  {
    RunKeepsInvariant(states, events, i);
  }

  /** No CLOSE overtakes a packet: when a writer or a poll sends one, all that was pushed has been taken. */
  lemma CloseComesLast(states: seq<Session>, events: seq<Event>, i: nat)
    requires IsRun(states, events) && i < |events|
    requires || (events[i].PollRuns? && AnswerTo(states[i]) == Close)
             || (events[i].WriterRuns? && states[i + 1].writers[events[i].w] == SendingClose)
    ensures states[i].outbox == [] && states[i].drained + states[i].taken == states[i].pushed
    ensures states[i + 1].pushed == states[i].pushed
  {
    RunKeepsInvariant(states, events, i);
    assert states[i].drained + states[i].taken + [] == states[i].drained + states[i].taken;
  }

  predicate LoneWriterGoesOn(s: Session) {
    |s.writers| <= 1 && Parked in s.writers ==> !s.wsStop
  }

  lemma LoneWriterStep(s: Session, e: Event)
    requires Enabled(s, e) && LoneWriterGoesOn(s)
    ensures LoneWriterGoesOn(Step(s, e))
  {
    assert |s.writers| <= |Step(s, e).writers|;
  }

  /** With one WebSocket, a parked writer has not been told to stop either. */
  lemma {:induction false} LoneWriterIsNotStopped(states: seq<Session>, events: seq<Event>, i: nat)
    requires IsRun(states, events) && i <= |events|
    ensures |states[i].writers| <= 1 && Parked in states[i].writers ==> !states[i].wsStop
  {
    if i > 0 {
      LoneWriterIsNotStopped(states, events, i - 1);
      assert LoneWriterGoesOn(states[i - 1]);
      LoneWriterStep(states[i - 1], events[i - 1]);
    }
  }

  // ---- The connection itself ----

  class EioConnection {
    var outbox: seq<string>
    var closing: bool
    var wsMode: bool
    var wsStop: bool
    var parkedPolls: nat
    var runnablePolls: nat
    var writers: seq<Writer>
    ghost var pushed: seq<string>
    ghost var drained: seq<string>
    ghost var bodies: seq<string>
    ghost var taken: seq<string>

    constructor ()
      ensures Now() == FRESH
    {
      outbox, closing, wsMode, wsStop := [], false, false, false;
      parkedPolls, runnablePolls, writers := 0, 0, [];
      pushed, drained, bodies, taken := [], [], [], [];
    }

    ghost function Now(): Session
      reads this
    {
      Session(outbox, closing, wsMode, wsStop, parkedPolls, runnablePolls, writers, pushed, drained, bodies, taken)
    }

    /** Every wait on the timer is cancelled. */
    method SetTimer()
      modifies this`parkedPolls, this`runnablePolls, this`writers
      ensures Now() == Wake(old(Now()))
    {
      runnablePolls, parkedPolls := runnablePolls + parkedPolls, 0;
      writers := Woken(writers);
    }

    method PushLocked(packet: string)
      modifies this
      ensures Now() == Step(old(Now()), Push(packet))
    {
      outbox := outbox + [packet];
      pushed := pushed + [packet];
      SetTimer();
    }

    method EnqueueEio(packet: string)
      modifies this
      ensures Now() == Step(old(Now()), Enqueue(packet))
    {
      if closing { return; }
      PushLocked(packet);
    }

    /** One round of `drain_for_poll`: the body to answer with, unless the poll parks. */
    method DrainForPoll() returns (answer: Option<string>)
      requires runnablePolls > 0
      modifies this
      ensures answer == BodyOf(AnswerTo(old(Now()))) && Now() == Step(old(Now()), PollRuns)
    {
      runnablePolls := runnablePolls - 1;
      if wsMode { return Some(NOOP); }
      if outbox != [] {
        var packets := outbox;
        outbox := [];
        var body := EncodePayload(packets);
        drained, bodies := drained + packets, bodies + [body];
        return Some(body);
      }
      if closing { return Some(CLOSE); }
      SetTimer();
      parkedPolls := 1;
      answer := None;
    }

    /** The flip to WebSocket mode; the new writer is about to run its first round. */
    method RunWebsocket()
      modifies this
      ensures Now() == Step(old(Now()), Upgrade)
    {
      if closing { return; }
      wsMode, wsStop := true, false;
      SetTimer();
      writers := writers + [Running];
    }

    /** One round of `ws_writer`, up to its next suspension. */
    method WsWriter(w: nat)
      requires w < |writers| && writers[w] == Running
      modifies this
      ensures Now() == Step(old(Now()), WriterRuns(w))
    {
      if wsStop {
        writers := writers[w := Stopped];
      } else if outbox != [] {
        var packet := outbox[0];
        outbox := outbox[1..];
        taken := taken + [packet];
        writers := writers[w := Sending(packet)];
      } else if closing {
        writers := writers[w := SendingClose];
      } else {
        SetTimer();
        writers := writers[w := Parked];
      }
    }

    /** A write has completed, with or without success. */
    method WriteCompleted(w: nat, ok: bool)
      requires w < |writers| && (writers[w].Sending? || writers[w] == SendingClose)
      modifies this
      ensures Now() == Step(old(Now()), WriteDone(w, ok))
    {
      if writers[w].Sending? && ok {
        writers := writers[w := Running];
      } else {
        wsStop := true;
        writers := writers[w := Stopped];
      }
    }

    /** The end of `ws_reader`. */
    method ReaderExit()
      modifies this
      ensures Now() == Step(old(Now()), ReaderExits)
    {
      wsStop := true;
      SetTimer();
    }

    method DoDisconnect()
      modifies this
      ensures Now() == Step(old(Now()), Disconnect)
    {
      if closing { return; }
      closing := true;
      SetTimer();
    }
  }
}
