/** The asynchronous event recorder: callers offer events to a bounded queue, one loop gathers them
    into batches and hands each batch to the publisher. */
module Recorder {
  datatype Event = Event(number: nat)

  function Flat(batches: seq<seq<Event>>): seq<Event> {
    if batches == [] then [] else Flat(batches[..|batches| - 1]) + batches[|batches| - 1]
  }

  predicate WellSized(batches: seq<seq<Event>>,
                      size: nat) { forall i :: 0 <= i < |batches| ==> 1 <= |batches[i]| <= size }

  lemma {:induction false} FlatOneMore(batches: seq<seq<Event>>, batch: seq<Event>)
    ensures Flat(batches + [batch]) == Flat(batches) + batch
  {
    assert (batches + [batch])[..|batches|] == batches;
  }

  /* ---- the loop on its own ---- */

  /** What the loop is woken by; the queue's end is the end of the list. */
  datatype Signal = Arrival(event: Event) | Tick

  function Arrivals(signals: seq<Signal>): seq<Event> {
    if signals == [] then []
    else
      var last := signals[|signals| - 1];
      Arrivals(signals[..|signals| - 1]) + if last.Arrival? then [last.event] else []
  }

  lemma {:induction false} ArrivalsStep(signals: seq<Signal>, i: nat)
    requires i < |signals|
    ensures Arrivals(signals[..i + 1]) == Arrivals(signals[..i]) + if signals[i].Arrival? then [signals[i].event]
            else []
  {
    assert signals[..i + 1][..i] == signals[..i];
  }

  /** The loop until the queue is closed and drained: every arrival is published once, in order, in
      batches no larger than the batch size, and none is empty. */
  method RunLoop(signals: seq<Signal>, size: nat) returns (published: seq<seq<Event>>)
    requires size > 0
    ensures Flat(published) == Arrivals(signals) && WellSized(published, size)
  {
    published := [];
    var batch: seq<Event> := [];
    var i := 0;
    assert Flat(published) + batch == Arrivals(signals[..i]) && WellSized(published, size);
    hide Flat;
    hide Arrivals;
    hide WellSized;
    while i < |signals|
      invariant 0 <= i <= |signals| && |batch| < size && WellSized(published, size)
      invariant Flat(published) + batch == Arrivals(signals[..i])
    {
      ArrivalsStep(signals, i);
      if signals[i].Arrival? {
        assert Flat(published) + batch + [signals[i].event] == Flat(published) + (batch + [signals[i].event]);
        batch := batch + [signals[i].event];
        if |batch| >= size { published, batch := Flush(published, batch, size); }
      } else {
        published, batch := Flush(published, batch, size);
      }
      i := i + 1;
    }
    assert signals[..i] == signals;
    published, batch := Flush(published, batch, size);
  }

  method Flush(published: seq<seq<Event>>, batch: seq<Event>, size: nat) returns (p: seq<seq<Event>>, b: seq<Event>)
    requires WellSized(published, size) && |batch| <= size
    ensures b == [] && p == Flushed(published, batch) && WellSized(p, size) && Flat(p) == Flat(published) + batch
  {
    FlatOneMore(published, batch);
    if |batch| == 0 { return published, []; }
    return published + [batch], [];
  }

  function Flushed(published: seq<seq<Event>>, batch: seq<Event>): seq<seq<Event>> {
    if batch == [] then published else published + [batch]
  }

  /* ---- callers and loop together ---- */

  datatype CallId = CallId(number: nat)

  /** `pending` holds the callers that have seen the recorder open and not yet sent. */
  datatype State = State(
    queue: seq<Event>, batch: seq<Event>, published: seq<seq<Event>>,
    pending: map<CallId, Event>, accepted: seq<Event>, refused: seq<Event>, dropped: nat,
    closed: bool, channelClosed: bool, ended: bool, panicked: bool)

  const NEW := State([], [], [], map[], [], [], 0, false, false, false, false)

  datatype Options = Options(capacity: nat, size: nat)

  datatype Step =
    | Check(id: CallId, event: Event)    // Record reads the closed flag
    | Send(id: CallId)                   // Record offers the event to the queue
    | SetClosed                          // Close, first half
    | CloseChannel                       // Close, second half
    | Receive                            // the loop takes an event, or sees the end
    | Ticks                              // the loop's flush timer

  predicate Enabled(s: State, step: Step) {
    match step
    case Check(id, _) => id !in s.pending
    case Send(id) => id in s.pending && !s.panicked
    case SetClosed => !s.closed
    case CloseChannel => s.closed && !s.channelClosed
    case Receive => !s.ended && (s.queue != [] || s.channelClosed)
    case Ticks => !s.ended
  }

  function Sent(s: State, id: CallId, o: Options): State
    requires id in s.pending
  {
    var e, t := s.pending[id], s.(pending := s.pending - {id});
    if s.channelClosed then t.(panicked := true)
    else if |s.queue| < o.capacity then t.(queue := s.queue + [e], accepted := s.accepted + [e])
    else t.(refused := s.refused + [e], dropped := s.dropped + 1)
  }

  function Received(s: State, o: Options): State {
    if s.queue == [] then s.(published := Flushed(s.published, s.batch), batch := [], ended := true)
    else
      var batch, t := s.batch + [s.queue[0]], s.(queue := s.queue[1..]);
      if |batch| >= o.size then t.(published := Flushed(s.published, batch), batch := []) else t.(batch := batch)
  }

  function Next(s: State, step: Step, o: Options): State
    requires Enabled(s, step)
  {
    match step
    case Check(id, e) => if s.closed then s else s.(pending := s.pending[id := e])
    case Send(id) => Sent(s, id, o)
    case SetClosed => s.(closed := true)
    case CloseChannel => s.(channelClosed := true)
    case Receive => Received(s, o)
    case Ticks => s.(published := Flushed(s.published, s.batch), batch := [])
  }

  predicate IsRun(s: State, run: seq<Step>, o: Options)
    decreases |run|
  {
    run == [] || (Enabled(s, run[0]) && IsRun(Next(s, run[0], o), run[1..], o))
  }

  function After(s: State, run: seq<Step>, o: Options): State
    requires IsRun(s, run, o)
    decreases |run|
  {
    if run == [] then s else After(Next(s, run[0], o), run[1..], o)
  }

  /** Accepted events are published, in the batch or in the queue, in that order; the counters are
      exact; after the end nothing is left. */
  predicate Inv(s: State, o: Options) {
    && s.accepted == Flat(s.published) + (s.batch + s.queue)
    && WellSized(s.published, o.size) && |s.batch| < o.size && |s.queue| <= o.capacity
    && s.dropped == |s.refused|
    && (s.ended ==> s.channelClosed && s.batch == [] && s.queue == [])
    && (s.channelClosed ==> s.closed)
  }

  lemma {:induction false} FlushedFlat(published: seq<seq<Event>>, batch: seq<Event>, size: nat)
    requires WellSized(published, size) && |batch| <= size
    ensures Flat(Flushed(published, batch)) == Flat(published) + batch && WellSized(Flushed(published, batch), size)
  {
    FlatOneMore(published, batch);
  }

  lemma {:induction false} ReceiveKeeps(s: State, o: Options)
    requires o.size > 0 && Inv(s, o) && Enabled(s, Receive)
    ensures Inv(Received(s, o), o)
  {
    hide Flat;
    hide WellSized;
    hide Flushed;
    if s.queue == [] {
      FlushedFlat(s.published, s.batch, o.size);
      assert s.batch + s.queue == s.batch;
    } else {
      var batch := s.batch + [s.queue[0]];
      assert s.batch + s.queue == batch + s.queue[1..];
      FlushedFlat(s.published, batch, o.size);
      assert Flat(s.published) + (batch + s.queue[1..]) == Flat(s.published) + batch + ([] + s.queue[1..]);
    }
  }

  lemma {:induction false} StepKeeps(s: State, step: Step, o: Options)
    requires o.size > 0 && Inv(s, o) && Enabled(s, step)
    ensures Inv(Next(s, step, o), o)
  {
    hide Flat;
    hide WellSized;
    hide Flushed;
    match step
    case Receive => ReceiveKeeps(s, o);
    case Ticks =>
      FlushedFlat(s.published, s.batch, o.size);
      assert Flat(s.published) + (s.batch + s.queue) == Flat(s.published) + s.batch + ([] + s.queue);
    case Send(id) =>
      var e := s.pending[id];
      assert Flat(s.published) + (s.batch + s.queue) + [e] == Flat(s.published) + (s.batch + (s.queue + [e]));
    case _ =>
  }

  lemma {:induction false} RunKeeps(s: State, run: seq<Step>, o: Options)
    requires o.size > 0 && Inv(s, o) && IsRun(s, run, o)
    ensures Inv(After(s, run, o), o)
    decreases |run|
  {
    hide Next;
    hide Inv;
    if run != [] {
      StepKeeps(s, run[0], o);
      RunKeeps(Next(s, run[0], o), run[1..], o);
    }
  }

  /** In every interleaving of callers, closing and the loop: accepted events are exactly the
      published, gathered and queued ones, in order; batches have 1 to `size` events; `dropped`
      counts exactly the events refused by a full queue; and once the loop has ended every accepted
      event has been published. */
  lemma {:induction false} NothingIsLost(run: seq<Step>, o: Options)
    requires o.size > 0 && IsRun(NEW, run, o)
    ensures var s := After(NEW, run, o);
            && s.accepted == Flat(s.published) + (s.batch + s.queue)
            && WellSized(s.published, o.size)
            && s.dropped == |s.refused|
            && (s.ended ==> s.accepted == Flat(s.published))
  {
    RunKeeps(NEW, run, o);
    var s := After(NEW, run, o);
    assert s.ended ==> Flat(s.published) + (s.batch + s.queue) == Flat(s.published);
  }

  function Receives(run: seq<Step>): nat {
    if run == [] then 0 else (if run[0].Receive? then 1 else 0) + Receives(run[1..])
  }

  /** The steps the loop has left once the channel is closed. */
  function Left(s: State): nat { if s.ended then 0 else |s.queue| + 1 }

  lemma {:induction false} LeftStep(s: State, step: Step, o: Options)
    requires s.channelClosed && Enabled(s, step)
    ensures var t := Next(s, step, o);
            t.channelClosed && Left(t) == Left(s) - if step.Receive? then 1 else 0
  {
  }

  /** In every run from a closed channel the loop receives at most once per queued event and once
      more, it has ended exactly when it did so, and until then it can go on. */
  lemma {:induction false} LoopEndsExactly(s: State, run: seq<Step>, o: Options)
    requires s.channelClosed && IsRun(s, run, o)
    ensures var t := After(s, run, o);
            && Receives(run) <= Left(s) && (t.ended <==> Receives(run) == Left(s))
            && (!t.ended ==> Enabled(t, Receive))
    decreases |run|
  {
    hide Next;
    if run != [] {
      LeftStep(s, run[0], o);
      LoopEndsExactly(Next(s, run[0], o), run[1..], o);
    }
  }

  /* ---- closing while callers are under way ---- */

  lemma {:induction false} PendingStep(s: State, step: Step, o: Options)
    requires Enabled(s, step) && s.closed && s.pending == map[] && !s.panicked
    ensures var t := Next(s, step, o); t.closed && t.pending == map[] && !t.panicked
  {
  }

  lemma {:induction false} QuietRun(s: State, run: seq<Step>, o: Options)
    requires IsRun(s, run, o) && s.closed && s.pending == map[] && !s.panicked
    ensures !After(s, run, o).panicked
    decreases |run|
  {
    hide Next;
    if run != [] {
      PendingStep(s, run[0], o);
      QuietRun(Next(s, run[0], o), run[1..], o);
    }
  }

  ghost predicate NeverPanics(s: State, o: Options) { forall run :: IsRun(s, run, o) ==> !After(s, run, o).panicked }

  /** Closing the channel is safe exactly when no caller is between its check and its send: if there
      is one, it sends on a closed channel, which panics; if there is none, no later run panics. */
  lemma {:induction false} CloseIsSafeIff(s: State, o: Options)
    requires Enabled(s, CloseChannel) && !s.panicked
    ensures NeverPanics(Next(s, CloseChannel, o), o) <==> s.pending == map[]
  {
    var t := Next(s, CloseChannel, o);
    if s.pending == map[] {
      forall run | IsRun(t, run, o) ensures !After(t, run, o).panicked { QuietRun(t, run, o); }
    } else {
      var id :| id in s.pending;
      var run := [Send(id)];
      assert run[1..] == [];
      assert id in t.pending;
      assert IsRun(Next(t, Send(id), o), [], o) && IsRun(t, run, o);
      assert After(t, run, o) == Next(t, Send(id), o);
      assert !NeverPanics(t, o);
    }
  }

  /** Such a caller exists in some run: it checks, then the recorder is closed around it. */
  lemma {:induction false} RecordRacesClose(o: Options)
    ensures var run := [Check(CallId(0), Event(0)), SetClosed, CloseChannel, Send(CallId(0))];
            IsRun(NEW, run, o) && After(NEW, run, o).panicked
  {
    var run := [Check(CallId(0), Event(0)), SetClosed, CloseChannel, Send(CallId(0))];
    var a := Next(NEW, run[0], o);
    var b := Next(a, SetClosed, o);
    var c := Next(b, CloseChannel, o);
    var d := Next(c, Send(CallId(0)), o);
    assert run[1..] == [SetClosed, CloseChannel, Send(CallId(0))];
    assert run[1..][1..] == [CloseChannel, Send(CallId(0))];
    assert run[1..][1..][1..] == [Send(CallId(0))];
    assert run[1..][1..][1..][1..] == [];
    assert IsRun(d, [], o) && After(d, [], o) == d;
    assert IsRun(c, [Send(CallId(0))], o) && After(c, [Send(CallId(0))], o) == d;
    assert IsRun(b, run[1..][1..], o) && After(b, run[1..][1..], o) == d;
    assert IsRun(a, run[1..], o) && After(a, run[1..], o) == d;
  }

  /* ---- the recorder's own fields, one undisturbed call at a time ---- */

  class AsyncRecorder {
    const options: Options
    var queue: seq<Event>
    var batch: seq<Event>
    var published: seq<seq<Event>>
    var dropped: nat
    var closed: bool
    var ended: bool
    ghost var accepted: seq<Event>
    ghost var refused: seq<Event>

    ghost function View(): State
      reads this
    {
      State(queue, batch, published, map[], accepted, refused, dropped, closed, closed, ended, false)
    }

    constructor (options: Options)
      ensures this.options == options && View() == NEW
    {
      this.options := options;
      queue, batch, published, dropped, closed, ended := [], [], [], 0, false, false;
      accepted, refused := [], [];
    }

    method Record(event: Event)
      modifies this
      ensures var checked := Next(old(View()), Check(CallId(0), event), options);
              View() == if old(closed) then checked else Next(checked, Send(CallId(0)), options)
    {
      if closed { return; }
      if |queue| < options.capacity {
        queue := queue + [event];
        accepted := accepted + [event];
      } else {
        dropped := dropped + 1;
        refused := refused + [event];
      }
      assert map[CallId(0) := event] - {CallId(0)} == map[];
    }

    method Close()
      modifies this
      ensures View() == if old(closed) then old(View())
              else Next(Next(old(View()), SetClosed, options), CloseChannel, options)
    {
      closed := true;
    }

    /** The loop takes what there is and returns when the closed queue is empty. */
    method Drain()
      requires options.size > 0 && Inv(View(), options) && closed && !ended
      modifies this
      ensures Inv(View(), options) && ended && accepted == old(accepted) && dropped == old(dropped)
      ensures Flat(published) == accepted
    {
      while |queue| > 0
        invariant Inv(View(), options) && closed && !ended && accepted == old(accepted) && dropped == old(dropped)
        decreases |queue|
      {
        ReceiveKeeps(View(), options);
        batch := batch + [queue[0]];
        queue := queue[1..];
        if |batch| >= options.size {
          published := Flushed(published, batch);
          batch := [];
        }
      }
      ReceiveKeeps(View(), options);
      published := Flushed(published, batch);
      batch := [];
      ended := true;
      assert Flat(published) + (batch + queue) == Flat(published);
    }
  }
}
