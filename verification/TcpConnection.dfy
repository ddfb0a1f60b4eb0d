/** The output side of a connection: direct writes, the output buffer behind them,
    write interest, and the half-close.  The result of every `write` is a parameter:
    a negative number for failure, otherwise how many bytes the kernel took. */
module TcpConnections {
  import opened Options
  import opened Buffers

  datatype StateE = Connecting | Connected | Disconnecting | Disconnected

  /** What other threads (and forceClose) leave in the loop's functor queue. */
  datatype Task = SendTask(message: Bytes) | ShutdownTask | ForceCloseTask

  datatype Call = SendCall(message: Bytes) | ShutdownCall | ForceCloseCall

  /** A thread between two steps of a call: it has tested the state, or has also set it.
      There is no lock around the test, the change and what follows. */
  datatype Midway = Passed(call: Call) | Changed(force: bool)

  datatype Link = Link(
    state: StateE,
    reading: bool,
    writing: bool,         // write interest
    out: Bytes,            // readable bytes of the output buffer
    queued: seq<Task>,
    own: Option<Midway>,   // the loop thread in the middle of a call
    others: seq<Midway>,   // other threads in the middle of calls
    wire: Bytes,           // bytes the kernel took
    accepted: Bytes,       // all messages given to sendInLoop, joined
    halfCloses: nat,       // calls of shutdownWrite
    closed: bool           // handleClose or connectDestroyed removed all interest
  )

  const NEW := Link(Connecting, false, false, [], [], None, [], [], [], 0, false)

  function Taken(n: int): nat {
    if n < 0 then 0 else n
  }

  function SendInLoop(l: Link, message: Bytes, n: int): Link
    requires n <= |message|
  {
    var nwrote := if !l.writing && l.out == [] then Taken(n) else 0;
    l.(wire := l.wire + message[..nwrote], out := l.out + message[nwrote..],
       writing := l.writing || nwrote < |message|, accepted := l.accepted + message)
  }

  function ShutdownInLoop(l: Link): Link {
    if l.writing then l else l.(halfCloses := l.halfCloses + 1)
  }

  function HandleWrite(l: Link, n: int): Link
    requires n <= |l.out|
  {
    if !l.writing || n <= 0 then l else
      var l1 := l.(wire := l.wire + l.out[..n], out := l.out[n..]);
      if l1.out != [] then l1 else
        var l2 := l1.(writing := false);
        if l2.state.Disconnecting? then ShutdownInLoop(l2) else l2
  }

  function HandleClose(l: Link): Link {
    l.(reading := false, writing := false, closed := true)
  }

  datatype Event =
    | Establish
    | OwnCall(call: Call)                // the loop thread enters a call and tests the state
    | OwnStep(n: int)                    // and goes on with it
    | OtherCall(call: Call)              // the same for some other thread
    | OtherStep(i: nat)
    | RunQueued(n: int)                  // the loop runs the next queued task
    | Writable(n: int)
    | Close                              // end of file, hang-up
    | Destroy

  predicate Open(l: Link) {
    l.state.Connected? || l.state.Disconnecting?
  }

  /** The test at the beginning of the call. */
  predicate Passes(l: Link, call: Call) {
    if call.ForceCloseCall? then Open(l) else l.state.Connected?
  }

  predicate SendFits(task: Task, n: int) {
    task.SendTask? ==> n <= |task.message|
  }

  predicate Enabled(l: Link, e: Event) {
    match e
    case Establish => l.own.None? && l.state.Connecting?
    case OwnCall(_) => l.own.None?
    case OwnStep(n) => l.own.Some? && (PassedSend(l.own.value) ==> n <= |l.own.value.call.message|)
    case OtherCall(_) => true
    case OtherStep(i) => i < |l.others|
    case RunQueued(n) => l.own.None? && l.queued != [] && SendFits(l.queued[0], n)
    case Writable(n) => l.own.None? && n <= |l.out|
    case Close => l.own.None? && Open(l)
    case Destroy => l.own.None? && Open(l)
  }

  predicate PassedSend(m: Midway) {
    m.Passed? && m.call.SendCall?
  }

  function RunTask(l: Link, task: Task, n: int): Link
    requires SendFits(task, n)
  {
    match task
    case SendTask(message) => SendInLoop(l, message, n)
    case ShutdownTask => ShutdownInLoop(l)
    case ForceCloseTask => if Open(l) then HandleClose(l) else l
  }

  /** The loop thread's next step: a send is done, a shutdown or forced close first sets
      the state, then shuts down or queues the close. */
  function GoOn(l: Link, n: int): Link
    requires Enabled(l, OwnStep(n))
  {
    match l.own.value
    case Passed(SendCall(message)) => SendInLoop(l.(own := None), message, n)
    case Passed(call) => l.(state := Disconnecting, own := Some(Changed(call.ForceCloseCall?)))
    case Changed(true) => l.(own := None, queued := l.queued + [ForceCloseTask])
    case Changed(false) => ShutdownInLoop(l.(own := None))
  }

  function Without(ms: seq<Midway>, i: nat): seq<Midway>
    requires i < |ms|
  {
    ms[..i] + ms[i + 1..]
  }

  /** Another thread's next step: everything but the state goes through the queue. */
  function GoOnElsewhere(l: Link, i: nat): Link
    requires i < |l.others|
  {
    match l.others[i]
    case Passed(SendCall(message)) => l.(others := Without(l.others, i), queued := l.queued + [SendTask(message)])
    case Passed(call) => l.(state := Disconnecting, others := l.others[i := Changed(call.ForceCloseCall?)])
    case Changed(force) =>
      l.(others := Without(l.others, i), queued := l.queued + [if force then ForceCloseTask else ShutdownTask])
  }

  function Next(l: Link, e: Event): Link
    requires Enabled(l, e)
  {
    match e
    case Establish => l.(state := Connected, reading := true)
    case OwnCall(call) => if Passes(l, call) then l.(own := Some(Passed(call))) else l
    case OwnStep(n) => GoOn(l, n)
    case OtherCall(call) => if Passes(l, call) then l.(others := l.others + [Passed(call)]) else l
    case OtherStep(i) => GoOnElsewhere(l, i)
    case RunQueued(n) => RunTask(l.(queued := l.queued[1..]), l.queued[0], n)
    case Writable(n) => HandleWrite(l, n)
    case Close => HandleClose(l)
    case Destroy => HandleClose(l).(state := Disconnected)
  }

  predicate Legal(l: Link, es: seq<Event>)
    decreases |es|
  {
    es == [] || (Enabled(l, es[0]) && Legal(Next(l, es[0]), es[1..]))
  }

  function Exec(l: Link, es: seq<Event>): Link
    requires Legal(l, es)
    decreases |es|
  {
    if es == [] then l else Exec(Next(l, es[0]), es[1..])
  }

  // ----- Conservation -----

  predicate Inv(l: Link) {
    && l.wire + l.out == l.accepted
    && (l.writing ==> l.out != [])
    && (!l.closed && l.out != [] ==> l.writing)
  }

  /** Some of the message goes to the wire behind an empty buffer, the rest into it. */
  lemma DirectWriteConserves(wire: Bytes, accepted: Bytes, message: Bytes, k: nat)
    requires k <= |message| && wire == accepted
    ensures (wire + message[..k]) + message[k..] == accepted + message
  {
    assert message == message[..k] + message[k..];
  }

  lemma BufferedConserves(wire: Bytes, out: Bytes, accepted: Bytes, message: Bytes)
    requires wire + out == accepted
    ensures wire + (out + message) == accepted + message
  {
  }

  lemma SendConserves(l: Link, message: Bytes, n: int)
    requires Inv(l) && n <= |message|
    ensures Inv(SendInLoop(l, message, n))
  {
    if !l.writing && l.out == [] {
      var k := Taken(n);
      assert l.wire == l.accepted by { assert l.wire + [] == l.wire; }
      DirectWriteConserves(l.wire, l.accepted, message, k);
      assert l.out + message[k..] == message[k..];
    } else {
      BufferedConserves(l.wire, l.out, l.accepted, message);
      assert message[..0] == [] && message[0..] == message && l.wire + [] == l.wire;
    }
  }

  lemma DrainConserves(l: Link, n: int)
    requires Inv(l) && n <= |l.out|
    ensures Inv(HandleWrite(l, n))
  {
    if n > 0 {
      assert l.out == l.out[..n] + l.out[n..];
      assert l.wire + (l.out[..n] + l.out[n..]) == (l.wire + l.out[..n]) + l.out[n..];
    }
  }

  lemma TaskConserves(l: Link, task: Task, n: int)
    requires Inv(l) && SendFits(task, n)
    ensures Inv(RunTask(l, task, n))
  {
    if task.SendTask? { SendConserves(l, task.message, n); }
  }

  lemma NextConserves(l: Link, e: Event)
    requires Inv(l) && Enabled(l, e)
    ensures Inv(Next(l, e))
  {
    match e {
      case OwnStep(n) => if PassedSend(l.own.value) { SendConserves(l.(own := None), l.own.value.call.message, n); }
      case RunQueued(n) => TaskConserves(l.(queued := l.queued[1..]), l.queued[0], n);
      case Writable(n) => DrainConserves(l, n);
      case _ =>
    }
  }

  lemma {:induction false} ExecConserves(l: Link, es: seq<Event>)
    requires Inv(l) && Legal(l, es)
    ensures Inv(Exec(l, es))
    decreases |es|
  {
    if es == [] {
    } else {
      NextConserves(l, es[0]);
      ExecConserves(Next(l, es[0]), es[1..]);
    }
  }

  /** Output conservation: under any pattern of partial and failed writes, what the
      kernel took and what is still buffered are, in order, exactly what was sent;
      write interest means buffered output, and until a close the converse too. */
  lemma OutputConserved(es: seq<Event>)
    requires Legal(NEW, es)
    ensures var l := Exec(NEW, es);
      && l.wire + l.out == l.accepted
      && (l.writing ==> l.out != [])
      && (!l.closed ==> (l.writing <==> l.out != []))
  {
    ExecConserves(NEW, es);
  }

  // ----- What the events alone say -----

  /** The message that this step gives to sendInLoop, if it gives one. */
  function SentBy(l: Link, e: Event): Option<Bytes>
    requires Enabled(l, e)
  {
    if e.OwnStep? && PassedSend(l.own.value) then Some(l.own.value.call.message)
    else if e.RunQueued? && l.queued[0].SendTask? then Some(l.queued[0].message)
    else None
  }

  /** What the step offers to `write`: a message only with nothing in front of it. */
  function OfferedBy(l: Link, e: Event): Option<Bytes>
    requires Enabled(l, e)
  {
    if SentBy(l, e).Some? && !l.writing && l.out == [] then SentBy(l, e)
    else if e.Writable? && l.writing then Some(l.out)
    else None
  }

  /** What `write` reports for the step, should it be issued. */
  function ReportOf(e: Event): int {
    match e
    case OwnStep(n) => n
    case RunQueued(n) => n
    case Writable(n) => n
    case _ => 0
  }

  /** The bytes that the kernel says it took. */
  function TakenBy(l: Link, e: Event): Bytes
    requires Enabled(l, e)
  {
    if OfferedBy(l, e).Some? && ReportOf(e) > 0 then OfferedBy(l, e).value[..ReportOf(e)] else []
  }

  function TakenIn(l: Link, es: seq<Event>): Bytes
    requires Legal(l, es)
    decreases |es|
  {
    if es == [] then [] else TakenBy(l, es[0]) + TakenIn(Next(l, es[0]), es[1..])
  }

  /** The sum of what the issued writes reported, failures aside. */
  function Reported(l: Link, es: seq<Event>): nat
    requires Legal(l, es)
    decreases |es|
  {
    if es == [] then 0
    else
      (if OfferedBy(l, es[0]).Some? && ReportOf(es[0]) > 0 then ReportOf(es[0]) else 0) + Reported(Next(l, es[0]), es[1..])
  }

  function SentIn(l: Link, es: seq<Event>): seq<Bytes>
    requires Legal(l, es)
    decreases |es|
  {
    if es == [] then []
    else (if SentBy(l, es[0]).Some? then [SentBy(l, es[0]).value] else []) + SentIn(Next(l, es[0]), es[1..])
  }

  function Joined(ms: seq<Bytes>): Bytes {
    if ms == [] then [] else ms[0] + Joined(ms[1..])
  }

  lemma JoinBytes(a: Bytes, b: Bytes, c: Bytes)
    ensures a + b + c == a + (b + c) && [] + c == c && a + [] == a
  {
  }

  /** A write event takes exactly what `write` reports, off the front of the buffer. */
  lemma DrainStep(l: Link, n: int)
    requires Enabled(l, Writable(n)) && l.writing
    ensures var t := Next(l, Writable(n));
      if n > 0 then t.wire == l.wire + l.out[..n] && t.out == l.out[n..] else t == l
  {
  }

  lemma StepTakes(l: Link, e: Event)
    requires Inv(l) && Enabled(l, e)
    ensures Next(l, e).wire == l.wire + TakenBy(l, e)
    ensures Next(l, e).accepted == l.accepted + if SentBy(l, e).Some? then SentBy(l, e).value else []
  {
    JoinBytes(l.wire, [], []);
    JoinBytes(l.accepted, [], []);
    if SentBy(l, e).Some? {
      assert SentBy(l, e).value[..0] == [];
    }
  }

  /** The accounts are the kernel's and the callers', not the connection's own. */
  lemma {:induction false} AccountsAreTrue(l: Link, es: seq<Event>)
    requires Inv(l) && Legal(l, es)
    ensures Exec(l, es).wire == l.wire + TakenIn(l, es) && |TakenIn(l, es)| == Reported(l, es)
    ensures Exec(l, es).accepted == l.accepted + Joined(SentIn(l, es))
    decreases |es|
  {
    if es == [] {
    } else {
      var t, rest := Next(l, es[0]), es[1..];
      NextConserves(l, es[0]);
      StepTakes(l, es[0]);
      AccountsAreTrue(t, rest);
      JoinBytes(l.wire, TakenBy(l, es[0]), TakenIn(t, rest));
      JoinSent(SentBy(l, es[0]), SentIn(t, rest));
      JoinBytes(l.accepted, if SentBy(l, es[0]).Some? then SentBy(l, es[0]).value else [], Joined(SentIn(t, rest)));
    }
  }

  lemma JoinSent(first: Option<Bytes>, rest: seq<Bytes>)
    ensures Joined((if first.Some? then [first.value] else []) + rest) == (if first.Some? then first.value else []) + Joined(rest)
  {
    if first.Some? {
      assert ([first.value] + rest)[1..] == rest;
    } else {
      assert [] + rest == rest && [] + Joined(rest) == Joined(rest);
    }
  }

  /** Output conservation on the events' terms: what the kernel took, write by write, and
      what is still buffered are the messages given to sendInLoop, in order; and the kernel
      took as many bytes as the writes reported. */
  lemma KernelGetsTheMessages(es: seq<Event>)
    requires Legal(NEW, es)
    ensures TakenIn(NEW, es) + Exec(NEW, es).out == Joined(SentIn(NEW, es))
    ensures |TakenIn(NEW, es)| == Reported(NEW, es)
  {
    ExecConserves(NEW, es);
    AccountsAreTrue(NEW, es);
    JoinBytes([], [], TakenIn(NEW, es));
    JoinBytes([], [], Joined(SentIn(NEW, es)));
  }

  // ----- Every send once -----

  /** Counting the sends of one message. */
  function OneCall(m: Midway, message: Bytes): nat {
    if m == Passed(SendCall(message)) then 1 else 0
  }

  function OneTask(t: Task, message: Bytes): nat {
    if t == SendTask(message) then 1 else 0
  }

  function MidwaySends(ms: seq<Midway>, message: Bytes): nat {
    if ms == [] then 0 else OneCall(ms[0], message) + MidwaySends(ms[1..], message)
  }

  function QueuedSends(ts: seq<Task>, message: Bytes): nat {
    if ts == [] then 0 else OneTask(ts[0], message) + QueuedSends(ts[1..], message)
  }

  /** The sends that passed the test of the state and were not given to sendInLoop yet. */
  function OnTheirWay(l: Link, message: Bytes): nat {
    (if l.own.Some? then OneCall(l.own.value, message) else 0) + MidwaySends(l.others, message) + QueuedSends(l.queued, message)
  }

  /** Whether this step calls the send on a connected connection, on any thread. */
  function CalledBy(l: Link, e: Event, message: Bytes): nat {
    if l.state.Connected? && (e == OwnCall(SendCall(message)) || e == OtherCall(SendCall(message))) then 1 else 0
  }

  function CalledIn(l: Link, es: seq<Event>, message: Bytes): nat
    requires Legal(l, es)
    decreases |es|
  {
    if es == [] then 0 else CalledBy(l, es[0], message) + CalledIn(Next(l, es[0]), es[1..], message)
  }

  function GivenBy(l: Link, e: Event, message: Bytes): nat
    requires Enabled(l, e)
  {
    if SentBy(l, e) == Some(message) then 1 else 0
  }

  function Occurrences(ms: seq<Bytes>, message: Bytes): nat {
    if ms == [] then 0 else (if ms[0] == message then 1 else 0) + Occurrences(ms[1..], message)
  }

  lemma {:induction false} MidwaySplit(a: seq<Midway>, b: seq<Midway>, message: Bytes)
    ensures MidwaySends(a + b, message) == MidwaySends(a, message) + MidwaySends(b, message)
  {
    if a == [] {
      assert a + b == b;
    } else {
      assert (a + b)[0] == a[0] && (a + b)[1..] == a[1..] + b;
      MidwaySplit(a[1..], b, message);
    }
  }

  lemma OneMidway(m: Midway, message: Bytes)
    ensures MidwaySends([m], message) == OneCall(m, message)
  {
    assert [m][1..] == [];
  }

  lemma MidwayChanges(ms: seq<Midway>, i: nat, m: Midway, message: Bytes)
    requires i < |ms|
    ensures MidwaySends(ms[i := m], message) + OneCall(ms[i], message) == MidwaySends(ms, message) + OneCall(m, message)
  {
    assert ms == ms[..i] + ([ms[i]] + ms[i + 1..]);
    assert ms[i := m] == ms[..i] + ([m] + ms[i + 1..]);
    MidwaySplit(ms[..i], [ms[i]] + ms[i + 1..], message);
    MidwaySplit(ms[..i], [m] + ms[i + 1..], message);
    MidwaySplit([ms[i]], ms[i + 1..], message);
    MidwaySplit([m], ms[i + 1..], message);
    OneMidway(ms[i], message);
    OneMidway(m, message);
  }

  lemma MidwayLeaves(ms: seq<Midway>, i: nat, message: Bytes)
    requires i < |ms|
    ensures MidwaySends(Without(ms, i), message) + OneCall(ms[i], message) == MidwaySends(ms, message)
  {
    assert ms == ms[..i] + ([ms[i]] + ms[i + 1..]);
    MidwaySplit(ms[..i], [ms[i]] + ms[i + 1..], message);
    MidwaySplit([ms[i]], ms[i + 1..], message);
    MidwaySplit(ms[..i], ms[i + 1..], message);
    OneMidway(ms[i], message);
  }

  lemma {:induction false} QueueGains(ts: seq<Task>, t: Task, message: Bytes)
    ensures QueuedSends(ts + [t], message) == QueuedSends(ts, message) + OneTask(t, message)
  {
    if ts == [] {
      assert ([] + [t])[1..] == [];
    } else {
      assert (ts + [t])[0] == ts[0] && (ts + [t])[1..] == ts[1..] + [t];
      QueueGains(ts[1..], t, message);
    }
  }

  lemma SendStep(l: Link, e: Event, message: Bytes)
    requires Enabled(l, e)
    ensures OnTheirWay(l, message) + CalledBy(l, e, message) == OnTheirWay(Next(l, e), message) + GivenBy(l, e, message)
  {
    match e {
      case OwnCall(call) => CallSendStep(l, e, message);
      case OtherCall(call) => CallSendStep(l, e, message);
      case OtherStep(i) => OtherSendStep(l, i, message);
      case OwnStep(n) => LoopSendStep(l, n, message);
      case RunQueued(n) => QueueSendStep(l, n, message);
      case _ =>
        var t := Next(l, e);
        assert t.own == l.own && t.others == l.others && t.queued == l.queued;
    }
  }

  lemma CallSendStep(l: Link, e: Event, message: Bytes)
    requires Enabled(l, e) && (e.OwnCall? || e.OtherCall?)
    ensures OnTheirWay(Next(l, e), message) == OnTheirWay(l, message) + CalledBy(l, e, message)
  {
    MidwaySplit(l.others, [Passed(e.call)], message);
    OneMidway(Passed(e.call), message);
  }

  lemma LoopSendStep(l: Link, n: int, message: Bytes)
    requires Enabled(l, OwnStep(n))
    ensures OnTheirWay(l, message) == OnTheirWay(GoOn(l, n), message) + GivenBy(l, OwnStep(n), message)
  {
    QueueGains(l.queued, ForceCloseTask, message);
    assert GoOn(l, n).others == l.others;
  }

  lemma QueueSendStep(l: Link, n: int, message: Bytes)
    requires Enabled(l, RunQueued(n))
    ensures OnTheirWay(l, message) == OnTheirWay(Next(l, RunQueued(n)), message) + GivenBy(l, RunQueued(n), message)
  {
    var t := Next(l, RunQueued(n));
    assert t.queued == l.queued[1..] && t.others == l.others && t.own == l.own;
  }

  lemma OtherSendStep(l: Link, i: nat, message: Bytes)
    requires i < |l.others|
    ensures OnTheirWay(l, message) == OnTheirWay(GoOnElsewhere(l, i), message)
  {
    match l.others[i] {
      case Passed(SendCall(m)) =>
        MidwayLeaves(l.others, i, message);
        QueueGains(l.queued, SendTask(m), message);
      case Passed(call) =>
        MidwayChanges(l.others, i, Changed(call.ForceCloseCall?), message);
      case Changed(force) =>
        MidwayLeaves(l.others, i, message);
        QueueGains(l.queued, if force then ForceCloseTask else ShutdownTask, message);
    }
  }

  /** Every send that is called on a connected connection, on whatever thread, is given to
      sendInLoop once, or is still on its way there; and nothing else is. */
  lemma {:induction false} EverySendOnce(l: Link, es: seq<Event>, message: Bytes)
    requires Legal(l, es)
    ensures OnTheirWay(l, message) + CalledIn(l, es, message)
         == OnTheirWay(Exec(l, es), message) + Occurrences(SentIn(l, es), message)
    decreases |es|
  {
    if es == [] {
    } else {
      var t, rest := Next(l, es[0]), es[1..];
      SendStep(l, es[0], message);
      EverySendOnce(t, rest, message);
      OccursOneMore(SentBy(l, es[0]), SentIn(t, rest), message);
    }
  }

  lemma OccursOneMore(first: Option<Bytes>, rest: seq<Bytes>, message: Bytes)
    ensures Occurrences((if first.Some? then [first.value] else []) + rest, message)
         == (if first == Some(message) then 1 else 0) + Occurrences(rest, message)
  {
    if first.Some? {
      assert ([first.value] + rest)[1..] == rest;
    } else {
      assert [] + rest == rest;
    }
  }

  // ----- State, interest and half-closes -----

  /** The step is the one of a shutdown or forced close that sets the state, or the end. */
  predicate Disconnects(l: Link, e: Event)
    requires Enabled(l, e)
  {
    || e.Destroy?
    || (e.OwnStep? && l.own.value.Passed? && !l.own.value.call.SendCall?)
    || (e.OtherStep? && l.others[e.i].Passed? && !l.others[e.i].call.SendCall?)
  }

  /** The step takes all interest away. */
  predicate Closes(l: Link, e: Event)
    requires Enabled(l, e)
  {
    e.Close? || e.Destroy? || (e.RunQueued? && l.queued[0].ForceCloseTask? && (l.state.Connected? || l.state.Disconnecting?))
  }

  /** The step shuts down the write side: a shutdown that finds no write interest, or the
      write that drains the buffer of a connection that is disconnecting. */
  predicate HalfCloses(l: Link, e: Event)
    requires Enabled(l, e)
  {
    || (e.OwnStep? && l.own == Some(Changed(false)) && !l.writing)
    || (e.RunQueued? && l.queued[0].ShutdownTask? && !l.writing)
    || (e.Writable? && l.writing && e.n == |l.out| > 0 && l.state.Disconnecting?)
  }

  function DisconnectsIn(l: Link, es: seq<Event>): nat
    requires Legal(l, es)
    decreases |es|
  {
    if es == [] then 0 else (if Disconnects(l, es[0]) then 1 else 0) + DisconnectsIn(Next(l, es[0]), es[1..])
  }

  function ClosesIn(l: Link, es: seq<Event>): nat
    requires Legal(l, es)
    decreases |es|
  {
    if es == [] then 0 else (if Closes(l, es[0]) then 1 else 0) + ClosesIn(Next(l, es[0]), es[1..])
  }

  function HalfClosesIn(l: Link, es: seq<Event>): nat
    requires Legal(l, es)
    decreases |es|
  {
    if es == [] then 0 else (if HalfCloses(l, es[0]) then 1 else 0) + HalfClosesIn(Next(l, es[0]), es[1..])
  }

  lemma StateStep(l: Link, e: Event)
    requires Enabled(l, e)
    ensures var t := Next(l, e);
      && (t.state.Connecting? <==> l.state.Connecting? && !e.Establish? && !Disconnects(l, e))
      && (t.state.Connected? <==> (l.state.Connected? || e.Establish?) && !Disconnects(l, e))
  {
  }

  lemma InterestStep(l: Link, e: Event)
    requires Enabled(l, e)
    ensures var t := Next(l, e);
      && (t.closed <==> l.closed || Closes(l, e))
      && (t.reading <==> (l.reading || e.Establish?) && !Closes(l, e))
      && (Closes(l, e) ==> !t.writing)
  {
  }

  lemma HalfCloseStep(l: Link, e: Event)
    requires Enabled(l, e)
    ensures Next(l, e).halfCloses == l.halfCloses + if HalfCloses(l, e) then 1 else 0
  {
    if e.Writable? && e.n > 0 {
      assert l.out[e.n..] == [] <==> e.n == |l.out|;
    }
  }

  /** The state is Connected exactly from the establishment to the first step that
      disconnects; and every half-close has its step. */
  lemma {:induction false} StateExactly(l: Link, es: seq<Event>)
    requires Legal(l, es)
    ensures var t := Exec(l, es);
      && (Establish in es ==> l.state.Connecting?)
      && (t.state.Connected? <==> (l.state.Connected? || Establish in es) && DisconnectsIn(l, es) == 0)
      && t.halfCloses == l.halfCloses + HalfClosesIn(l, es)
    decreases |es|
  {
    if es == [] {
    } else {
      StateStep(l, es[0]);
      HalfCloseStep(l, es[0]);
      StateExactly(Next(l, es[0]), es[1..]);
      assert forall e :: e in es <==> e == es[0] || e in es[1..];
    }
  }

  /** There is read interest exactly from the establishment to the first step that closes. */
  lemma {:induction false} InterestExactly(l: Link, es: seq<Event>)
    requires Legal(l, es) && !l.reading && l.state.Connecting?
    ensures Exec(l, es).reading <==> Establish in es && ClosesIn(l, es) == 0
    decreases |es|
  {
    if es == [] {
    } else {
      InterestStep(l, es[0]);
      StateStep(l, es[0]);
      assert forall e :: e in es <==> e == es[0] || e in es[1..];
      if es[0].Establish? {
        ReadsUntilClosed(Next(l, es[0]), es[1..]);
      } else if Next(l, es[0]).state.Connecting? {
        InterestExactly(Next(l, es[0]), es[1..]);
      } else {
        NeverReads(Next(l, es[0]), es[1..]);
      }
    }
  }

  lemma {:induction false} ReadsUntilClosed(l: Link, es: seq<Event>)
    requires Legal(l, es) && l.reading && !l.state.Connecting?
    ensures Exec(l, es).reading <==> ClosesIn(l, es) == 0
    decreases |es|
  {
    if es == [] {
    } else {
      InterestStep(l, es[0]);
      StateStep(l, es[0]);
      if Closes(l, es[0]) {
        NeverReads(Next(l, es[0]), es[1..]);
      } else {
        ReadsUntilClosed(Next(l, es[0]), es[1..]);
      }
    }
  }

  lemma {:induction false} NeverReads(l: Link, es: seq<Event>)
    requires Legal(l, es) && !l.reading && !l.state.Connecting?
    ensures !Exec(l, es).reading && Establish !in es
    decreases |es|
  {
    if es == [] {
    } else {
      InterestStep(l, es[0]);
      StateStep(l, es[0]);
      NeverReads(Next(l, es[0]), es[1..]);
    }
  }

  // ----- Graceful shutdown -----

  /** A step of the loop thread; other threads may only force the connection to close. */
  predicate OnLoop(e: Event) {
    e.OtherCall? ==> e.call.ForceCloseCall?
  }

  predicate Finished(l: Link) {
    l.state.Disconnecting? || l.state.Disconnected?
  }

  predicate Forces(m: Midway) {
    if m.Passed? then m.call.ForceCloseCall? else m.force
  }

  /** A forced close is queued or about to be. */
  predicate Forcing(l: Link) {
    ForceCloseTask in l.queued || Changed(true) in l.others || l.own == Some(Changed(true))
  }

  /** Nothing but forced closes comes from elsewhere. */
  predicate OnlyForced(l: Link) {
    (forall t :: t in l.queued ==> t.ForceCloseTask?) && (forall m :: m in l.others ==> Forces(m))
  }

  predicate Graceful(l: Link) {
    && Inv(l) && OnlyForced(l)
    && (l.own.Some? && l.own.value.Changed? ==> Finished(l))
    && (l.closed ||
        (&& (l.halfCloses > 0 ==> Finished(l) && l.out == [] && (l.own.Some? ==> Forces(l.own.value)))
         && l.halfCloses <= 1
         && (l.state.Disconnecting? && l.halfCloses == 0 ==> l.writing || Forcing(l) || l.own == Some(Changed(false)))
         && !l.state.Disconnected?))
  }

  lemma OthersStayForced(l: Link, e: Event)
    requires OnlyForced(l) && Enabled(l, e) && OnLoop(e)
    ensures OnlyForced(Next(l, e))
  {
    if e.OtherStep? { assert l.others[e.i] in l.others; }
  }

  /** Another thread's step keeps the forced close coming. */
  lemma StillForcing(l: Link, i: nat)
    requires i < |l.others| && Forces(l.others[i])
    ensures Forcing(GoOnElsewhere(l, i))
  {
    var t := GoOnElsewhere(l, i);
    if l.others[i].Passed? {
      assert t.others[i] == Changed(true);
    } else {
      assert t.queued[|l.queued|] == ForceCloseTask;
    }
  }

  lemma ElsewhereGraceful(l: Link, e: Event)
    requires Graceful(l) && Enabled(l, e) && OnLoop(e) && (e.OtherCall? || e.OtherStep?)
    ensures Graceful(Next(l, e)) && Next(l, e).closed == l.closed
  {
    OthersStayForced(l, e);
    if e.OtherStep? {
      assert l.others[e.i] in l.others;
      StillForcing(l, e.i);
    }
  }

  lemma LoopGraceful(l: Link, e: Event)
    requires Graceful(l) && Enabled(l, e) && !e.OtherCall? && !e.OtherStep?
    ensures Graceful(Next(l, e))
    ensures l.closed ==> Next(l, e).closed
  {
    NextConserves(l, e);
    OthersStayForced(l, e);
    if e.RunQueued? {
      assert l.queued[0] in l.queued;
      assert Next(l, e).closed || !Open(l);
    } else if e.OwnStep? && l.own.value == Changed(true) {
      assert Next(l, e).queued[|l.queued|] == ForceCloseTask;
    }
  }

  lemma NextGraceful(l: Link, e: Event)
    requires Graceful(l) && Enabled(l, e) && OnLoop(e)
    ensures Graceful(Next(l, e))
    ensures l.closed ==> Next(l, e).closed
  {
    if e.OtherCall? || e.OtherStep? {
      ElsewhereGraceful(l, e);
    } else {
      LoopGraceful(l, e);
    }
  }

  lemma {:induction false} ExecGraceful(l: Link, es: seq<Event>)
    requires Graceful(l) && Legal(l, es) && forall e :: e in es ==> OnLoop(e)
    ensures Graceful(Exec(l, es))
    decreases |es|
  {
    if es == [] {
    } else {
      NextGraceful(l, es[0]);
      ExecGraceful(Next(l, es[0]), es[1..]);
    }
  }

  /** Graceful shutdown, for calls made on the loop thread (and forced closes from any)
      and a connection that was not closed: the write side is shut at most once, only when
      every accepted byte is on the wire; outside the loop thread's calls, a shutdown that
      was asked for has happened, or waits for a drain (or a forced close is coming), and
      the drain that empties the buffer performs it. */
  lemma GracefulShutdown(es: seq<Event>)
    requires Legal(NEW, es) && forall e :: e in es ==> OnLoop(e)
    requires !Exec(NEW, es).closed
    ensures var l := Exec(NEW, es);
      && l.halfCloses <= 1
      && (l.halfCloses == 1 ==> l.wire == l.accepted && l.out == [])
      && (l.own.None? && l.state.Disconnecting? ==> l.halfCloses == 1 || l.writing || Forcing(l))
      && (l.own.None? && l.state.Disconnecting? && l.writing ==> Next(l, Writable(|l.out|)).halfCloses == 1)
  {
    ExecGraceful(NEW, es);
    var l := Exec(NEW, es);
    assert l.out == [] ==> l.wire + l.out == l.wire;
  }

  /** Once shutting down, with no send that has passed its test, nothing more is accepted,
      whatever is still called on the loop thread. */
  lemma NothingAfterHalfClose(l: Link, es: seq<Event>)
    requires Graceful(l) && Legal(l, es) && (forall e :: e in es ==> OnLoop(e))
    requires Finished(l) && (l.own.Some? ==> !PassedSend(l.own.value))
    ensures Exec(l, es).accepted == l.accepted && Finished(Exec(l, es))
  {
    StaysFinished(l, es);
    if Exec(l, es).accepted != l.accepted {
      MoreMeansLateSend(l, es);
      assert false;
    }
  }

  // ----- What is accepted once shutting down -----

  lemma {:induction false} StaysFinished(l: Link, es: seq<Event>)
    requires Finished(l) && Legal(l, es)
    ensures Finished(Exec(l, es))
    decreases |es|
  {
    if es == [] {
    } else {
      StaysFinished(Next(l, es[0]), es[1..]);
    }
  }

  /** The messages of the queued sends, joined. */
  function Sends(tasks: seq<Task>): Bytes {
    if tasks == [] then []
    else (if tasks[0].SendTask? then tasks[0].message else []) + Sends(tasks[1..])
  }

  /** How many queued tasks the loop runs. */
  function TasksRun(es: seq<Event>): nat {
    if es == [] then 0 else (if es[0].RunQueued? then 1 else 0) + TasksRun(es[1..])
  }

  function FirstTasks(tasks: seq<Task>, n: nat): seq<Task> {
    if n <= |tasks| then tasks[..n] else tasks
  }

  /** What the step puts into the queue. */
  function QueuedBy(l: Link, e: Event): seq<Task>
    requires Enabled(l, e)
  {
    if e.OwnStep? && l.own.value == Changed(true) then [ForceCloseTask]
    else if e.OtherStep? then
      match l.others[e.i]
      case Passed(SendCall(message)) => [SendTask(message)]
      case Passed(_) => []
      case Changed(force) => [if force then ForceCloseTask else ShutdownTask]
    else []
  }

  /** What a run puts into the queue. */
  function QueuedIn(l: Link, es: seq<Event>): seq<Task>
    requires Legal(l, es)
    decreases |es|
  {
    if es == [] then [] else QueuedBy(l, es[0]) + QueuedIn(Next(l, es[0]), es[1..])
  }

  /** The message of the loop thread's own send, if it has passed its test and the run
      goes on with it. */
  function OwnSend(l: Link, es: seq<Event>): Bytes {
    if l.own.Some? && PassedSend(l.own.value) && exists e :: e in es && e.OwnStep? then l.own.value.call.message else []
  }

  lemma JoinTasks(a: seq<Task>, b: seq<Task>, c: seq<Task>)
    ensures a + b + c == a + (b + c) && a + ([] + c) == a + c
  {
  }

  lemma FinishedQueue(l: Link, e: Event)
    requires Enabled(l, e) && Finished(l)
    ensures var t := Next(l, e);
      Finished(t) && t.queued == (if e.RunQueued? then l.queued[1..] else l.queued + QueuedBy(l, e))
  {
    assert l.queued + [] == l.queued;
  }

  /** A step once shutting down accepts the send it is about: the loop thread's own, or
      the queued one it runs. */
  lemma FinishedStep(l: Link, e: Event)
    requires Enabled(l, e) && Finished(l)
    ensures Next(l, e).accepted == l.accepted + (if e.RunQueued? then Sends([l.queued[0]]) else OwnSend(l, [e]))
  {
    JoinBytes(l.accepted, [], []);
    assert e in [e] && forall x :: x in [e] ==> x == e;
    if e.RunQueued? {
      var task := l.queued[0];
      assert [task][1..] == [];
      assert task.SendTask? ==> Sends([task]) == task.message + [];
    }
  }

  /** Once shutting down no send passes the test any more. */
  lemma NoNewSends(l: Link, e: Event, m: Midway)
    requires Enabled(l, e) && Finished(l) && PassedSend(m)
    ensures m in Next(l, e).others ==> m in l.others
    ensures Next(l, e).own == Some(m) ==> l.own == Some(m) && !e.OwnStep?
  {
  }

  lemma OwnSendStep(l: Link, e: Event, rest: seq<Event>)
    requires Enabled(l, e) && Finished(l)
    ensures OwnSend(l, [e] + rest) == if e.OwnStep? then OwnSend(l, [e]) else OwnSend(Next(l, e), rest)
    ensures e.OwnStep? ==> OwnSend(Next(l, e), rest) == []
    ensures e.RunQueued? ==> OwnSend(Next(l, e), rest) == []
    ensures !e.OwnStep? ==> OwnSend(l, [e]) == []
  {
    assert forall x :: x in [e] + rest <==> x == e || x in rest;
    assert e in [e] && forall x :: x in [e] ==> x == e;
    var t := Next(l, e);
    if t.own.Some? && PassedSend(t.own.value) {
      NoNewSends(l, e, t.own.value);
    }
  }

  lemma FirstTaskSends(tasks: seq<Task>, n: nat)
    requires tasks != []
    ensures Sends(FirstTasks(tasks, n + 1)) == Sends([tasks[0]]) + Sends(FirstTasks(tasks[1..], n))
  {
    var tail := FirstTasks(tasks[1..], n);
    assert FirstTasks(tasks, n + 1) == [tasks[0]] + tail;
    assert ([tasks[0]] + tail)[1..] == tail && [tasks[0]][1..] == [];
  }

  /** `send` looks at the state, without a lock, before it queues or writes, and
      `sendInLoop` does not look again.  Whatever happens once shutting down, what is
      accepted from then on is exactly what the loop thread's own send in progress and
      the queued sends that are run carry... */
  lemma {:induction false} AcceptedLate(l: Link, es: seq<Event>)
    requires Legal(l, es) && Finished(l)
    ensures Exec(l, es).accepted ==
      l.accepted + (OwnSend(l, es) + Sends(FirstTasks(l.queued + QueuedIn(l, es), TasksRun(es))))
    decreases |es|
  {
    if es == [] {
      assert (l.queued + [])[..0] == [];
      JoinBytes(l.accepted, [], []);
    } else {
      var e, rest := es[0], es[1..];
      var t := Next(l, e);
      assert es == [e] + rest;
      FinishedQueue(l, e);
      OwnSendStep(l, e, rest);
      AcceptedLate(t, rest);
      if e.RunQueued? {
        RunQueuedLate(l, e, rest);
      } else {
        OtherStepLate(l, e, rest);
      }
    }
  }

  /** The bytes a run accepts later, but for the loop thread's own send. */
  function Later(l: Link, es: seq<Event>): Bytes
    requires Legal(l, es)
  {
    Sends(FirstTasks(l.queued + QueuedIn(l, es), TasksRun(es)))
  }

  lemma FirstQueuedSends(queued: seq<Task>, more: seq<Task>, n: nat)
    requires queued != []
    ensures Sends(FirstTasks(queued + more, 1 + n)) == Sends([queued[0]]) + Sends(FirstTasks(queued[1..] + more, n))
  {
    var all := queued + more;
    assert all[0] == queued[0] && all[1..] == queued[1..] + more;
    FirstTaskSends(all, n);
  }

  lemma LaterUnfolds(l: Link, e: Event, rest: seq<Event>)
    requires Enabled(l, e) && e.RunQueued? && Finished(l) && Legal(Next(l, e), rest) && Legal(l, [e] + rest)
    ensures Later(l, [e] + rest) == Sends([l.queued[0]]) + Later(Next(l, e), rest)
  {
    var more := QueuedIn(Next(l, e), rest);
    assert QueuedIn(l, [e] + rest) == more && TasksRun([e] + rest) == 1 + TasksRun(rest) by {
      Unfold(l, e, rest);
      assert QueuedBy(l, e) == [] && [] + more == more;
    }
    assert Next(l, e).queued == l.queued[1..] by { FinishedQueue(l, e); }
    FirstQueuedSends(l.queued, more, TasksRun(rest));
  }

  lemma RunQueuedLate(l: Link, e: Event, rest: seq<Event>)
    requires Enabled(l, e) && e.RunQueued? && Finished(l) && Legal(Next(l, e), rest) && Legal(l, [e] + rest)
    requires var t := Next(l, e); Exec(t, rest).accepted == t.accepted + ([] + Later(t, rest))
    ensures Exec(l, [e] + rest).accepted == l.accepted + ([] + Later(l, [e] + rest))
  {
    FinishedStep(l, e);
    OneStepMore(l, e, rest);
    LaterUnfolds(l, e, rest);
    var late := Later(Next(l, e), rest);
    JoinBytes(l.accepted, Sends([l.queued[0]]), late);
    JoinBytes([], [], late);
    JoinBytes([], [], Later(l, [e] + rest));
  }

  lemma OtherStepLate(l: Link, e: Event, rest: seq<Event>)
    requires Enabled(l, e) && !e.RunQueued? && Finished(l) && Legal(Next(l, e), rest) && Legal(l, [e] + rest)
    requires var t := Next(l, e); Exec(t, rest).accepted == t.accepted + (OwnSend(t, rest) + Later(t, rest))
    ensures Exec(l, [e] + rest).accepted == l.accepted + (OwnSend(l, [e] + rest) + Later(l, [e] + rest))
  {
    var t := Next(l, e);
    FinishedQueue(l, e);
    FinishedStep(l, e);
    OneStepMore(l, e, rest);
    OwnSendStep(l, e, rest);
    Unfold(l, e, rest);
    JoinTasks(l.queued, QueuedBy(l, e), QueuedIn(t, rest));
    assert Later(l, [e] + rest) == Later(t, rest);
    JoinBytes(l.accepted, OwnSend(l, [e]), Later(t, rest));
    JoinBytes(l.accepted, [], OwnSend(t, rest) + Later(t, rest));
  }

  lemma Unfold(l: Link, e: Event, rest: seq<Event>)
    requires Enabled(l, e) && Legal(Next(l, e), rest) && Legal(l, [e] + rest)
    ensures TasksRun([e] + rest) == (if e.RunQueued? then 1 else 0) + TasksRun(rest)
    ensures QueuedIn(l, [e] + rest) == QueuedBy(l, e) + QueuedIn(Next(l, e), rest)
  {
    assert ([e] + rest)[0] == e && ([e] + rest)[1..] == rest;
  }

  /** ...and the sends that are queued meanwhile had passed their test before. */
  lemma {:induction false} QueuedSendsHadPassed(l: Link, es: seq<Event>, message: Bytes)
    requires Legal(l, es) && Finished(l) && SendTask(message) in QueuedIn(l, es)
    ensures Passed(SendCall(message)) in l.others
    decreases |es|
  {
    if SendTask(message) in QueuedBy(l, es[0]) {
      assert l.others[es[0].i] in l.others;
    } else {
      FinishedQueue(l, es[0]);
      QueuedSendsHadPassed(Next(l, es[0]), es[1..], message);
      NoNewSends(l, es[0], Passed(SendCall(message)));
    }
  }

  predicate LateTask(t: Task) {
    t.SendTask? && t.message != []
  }

  predicate LateCall(m: Midway) {
    PassedSend(m) && m.call.message != []
  }

  /** Some non-empty send is queued, or has passed its test on some thread. */
  predicate LateSend(l: Link) {
    || (exists t :: t in l.queued && LateTask(t))
    || (exists m :: m in l.others && LateCall(m))
    || (l.own.Some? && LateCall(l.own.value))
  }

  ghost predicate AcceptsMore(l: Link, es: seq<Event>) {
    Legal(l, es) && Exec(l, es).accepted != l.accepted
  }

  /** So once a shutdown has begun, something can still be accepted exactly when some
      non-empty send is queued or has passed its test at that moment. */
  lemma AcceptedLateExactlyWhen(l: Link)
    requires Finished(l)
    ensures (exists es :: AcceptsMore(l, es)) <==> LateSend(l)
  {
    if es :| AcceptsMore(l, es) {
      MoreMeansLateSend(l, es);
    }
    if LateSend(l) {
      LateSendMeansMore(l);
    }
  }

  lemma MoreMeansLateSend(l: Link, es: seq<Event>)
    requires Finished(l) && AcceptsMore(l, es)
    ensures LateSend(l)
  {
    AcceptedLate(l, es);
    var all := l.queued + QueuedIn(l, es);
    var first := FirstTasks(all, TasksRun(es));
    JoinBytes(l.accepted, [], []);
    if OwnSend(l, es) == [] {
      NonEmptySend(first);
      var t :| t in first && LateTask(t);
      assert t in l.queued || t in QueuedIn(l, es);
      if t !in l.queued {
        QueuedSendsHadPassed(l, es, t.message);
        assert LateCall(Passed(SendCall(t.message)));
      }
    }
  }

  lemma {:induction false} NonEmptySend(tasks: seq<Task>)
    requires Sends(tasks) != []
    ensures exists t :: t in tasks && LateTask(t)
  {
    if tasks[0].SendTask? && tasks[0].message != [] {
      assert tasks[0] in tasks && LateTask(tasks[0]);
    } else {
      NonEmptySend(tasks[1..]);
    }
  }

  lemma {:induction false} SendsAreSeen(tasks: seq<Task>, t: Task)
    requires t in tasks && LateTask(t)
    ensures Sends(tasks) != []
  {
    if t == tasks[0] {
    } else {
      SendsAreSeen(tasks[1..], t);
    }
  }

  lemma OneStepMore(l: Link, e: Event, es: seq<Event>)
    requires Enabled(l, e) && Legal(Next(l, e), es)
    ensures Legal(l, [e] + es) && Exec(l, [e] + es) == Exec(Next(l, e), es)
  {
    assert ([e] + es)[0] == e && ([e] + es)[1..] == es;
  }

  /** How many steps the loop thread's call still takes. */
  function StepsInCall(l: Link): nat {
    match l.own case None => 0 case Some(Changed(_)) => 1 case Some(Passed(_)) => 2
  }

  lemma {:induction false} LateSendMeansMore(l: Link)
    requires Finished(l) && LateSend(l)
    ensures exists es :: AcceptsMore(l, es)
    decreases StepsInCall(l)
  {
    if l.own.Some? {
      var e := OwnStep(-1);
      FinishedStep(l, e);
      FinishedQueue(l, e);
      assert e in [e];
      if LateCall(l.own.value) {
        OneStepMore(l, e, []);
        assert |Next(l, e).accepted| == |l.accepted| + |l.own.value.call.message|;
        assert AcceptsMore(l, [e] + []);
      } else {
        var t := Next(l, e);
        JoinBytes(l.accepted, [], []);
        assert OwnSend(l, [e]) == [];
        assert forall x :: x in l.queued ==> x in t.queued;
        LateSendMeansMore(t);
        var es :| AcceptsMore(t, es);
        OneStepMore(l, e, es);
        assert AcceptsMore(l, [e] + es);
      }
    } else if t :| t in l.queued && LateTask(t) {
      LateTaskMeansMore(l, t);
    } else {
      LateCallMeansMore(l);
    }
  }

  lemma LateTaskMeansMore(l: Link, t: Task)
    requires Finished(l) && l.own.None? && t in l.queued && LateTask(t)
    ensures exists es :: AcceptsMore(l, es)
  {
    var es := seq(|l.queued|, _ => RunQueued(-1));
    RunAll(l, es);
    AcceptedLate(l, es);
    assert FirstTasks(l.queued + [], |es|) == l.queued;
    SendsAreSeen(l.queued, t);
    assert |Exec(l, es).accepted| == |l.accepted| + |Sends(l.queued)|;
    assert AcceptsMore(l, es);
  }

  lemma LateCallMeansMore(l: Link)
    requires Finished(l) && l.own.None? && exists m :: m in l.others && LateCall(m)
    ensures exists es :: AcceptsMore(l, es)
  {
    var m :| m in l.others && LateCall(m);
    var i :| 0 <= i < |l.others| && l.others[i] == m;
    var e := OtherStep(i);
    var t := Next(l, e);
    assert t.queued[|l.queued|] == SendTask(m.call.message);
    LateTaskMeansMore(t, SendTask(m.call.message));
    var es :| AcceptsMore(t, es);
    OneStepMore(l, e, es);
    assert AcceptsMore(l, [e] + es);
  }

  /** The loop can always run everything that is queued. */
  lemma {:induction false} RunAll(l: Link, es: seq<Event>)
    requires Finished(l) && l.own.None?
    requires |es| <= |l.queued| && forall i :: 0 <= i < |es| ==> es[i] == RunQueued(-1)
    ensures Legal(l, es) && TasksRun(es) == |es| && QueuedIn(l, es) == []
    decreases |es|
  {
    if es == [] {
    } else {
      assert es[0] == RunQueued(-1);
      FinishedQueue(l, es[0]);
      RunAll(Next(l, es[0]), es[1..]);
    }
  }

  const SHUT_DOWN := [OwnCall(ShutdownCall), OwnStep(0), OwnStep(0)]

  /** The loop thread shuts down an established connection: at once with nothing to write,
      else by leaving it to the drain. */
  lemma ShutDownSteps(l: Link)
    requires l.state.Connected? && l.own.None?
    ensures Legal(l, SHUT_DOWN)
    ensures Exec(l, SHUT_DOWN) == l.(state := Disconnecting, halfCloses := l.halfCloses + if l.writing then 0 else 1)
  {
    var l1 := Next(l, OwnCall(ShutdownCall));
    var l2 := Next(l1, OwnStep(0));
    OneStepMore(l2, OwnStep(0), []);
    OneStepMore(l1, OwnStep(0), [OwnStep(0)] + []);
    OneStepMore(l, OwnCall(ShutdownCall), [OwnStep(0)] + ([OwnStep(0)] + []));
    assert SHUT_DOWN == [OwnCall(ShutdownCall)] + ([OwnStep(0)] + ([OwnStep(0)] + []));
  }

  /** Such runs exist for every non-empty message: the send is queued before the half-close
      and run after it, or even queued after it. */
  lemma LateSendIsReachable(message: Bytes, n: int)
    requires message != [] && n <= |message|
    ensures var es := [Establish] + ([OtherCall(SendCall(message))] + ([OtherStep(0)] + SHUT_DOWN));
      Legal(NEW, es) && var l := Exec(NEW, es);
      l.halfCloses == 1 && Enabled(l, RunQueued(n)) && Next(l, RunQueued(n)).accepted == message
    ensures var es := [Establish] + ([OtherCall(SendCall(message))] + SHUT_DOWN);
      Legal(NEW, es) && var l := Exec(NEW, es);
      l.halfCloses == 1 && l.queued == [] && Enabled(l, OtherStep(0)) &&
      var t := Next(l, OtherStep(0)); Enabled(t, RunQueued(n)) && Next(t, RunQueued(n)).accepted == message
  {
    var l1 := Next(NEW, Establish);
    var l2 := Next(l1, OtherCall(SendCall(message)));
    var l3 := Next(l2, OtherStep(0));
    assert [] + message == message;
    ShutDownSteps(l3);
    OneStepMore(l2, OtherStep(0), SHUT_DOWN);
    OneStepMore(l1, OtherCall(SendCall(message)), [OtherStep(0)] + SHUT_DOWN);
    OneStepMore(NEW, Establish, [OtherCall(SendCall(message))] + ([OtherStep(0)] + SHUT_DOWN));
    ShutDownSteps(l2);
    OneStepMore(l1, OtherCall(SendCall(message)), SHUT_DOWN);
    OneStepMore(NEW, Establish, [OtherCall(SendCall(message))] + SHUT_DOWN);
  }

  // ----- The object -----

  class TcpConnection {
    var state: StateE
    var reading: bool
    var writing: bool
    const out: Buffer
    var queued: seq<Task>
    var own: Option<Midway>
    var others: seq<Midway>
    ghost var wire: Bytes
    ghost var accepted: Bytes
    ghost var halfCloses: nat
    ghost var closed: bool

    ghost predicate Valid()
      reads this, out, out.data
    {
      out.Valid() && Inv(Abs())
    }

    ghost function Abs(): Link
      requires out.Valid()
      reads this, out, out.data
    {
      Link(state, reading, writing, out.Contents(), queued, own, others, wire, accepted, halfCloses, closed)
    }

    constructor ()
      ensures Valid() && fresh(out) && fresh(out.data) && Abs() == NEW
    {
      state, reading, writing, queued := Connecting, false, false, [];
      own, others := None, [];
      wire, accepted, halfCloses, closed := [], [], 0, false;
      out := new Buffer();
    }

    method ConnectEstablished()
      requires Valid() && own.None? && state.Connecting?
      modifies this
      ensures Valid() && Abs() == Next(old(Abs()), Establish)
    {
      state := Connected;
      reading := true;
    }

    method DoSendInLoop(message: Bytes, n: int)
      requires Valid() && n <= |message|
      modifies this, out, out.data
      ensures Valid() && Abs() == SendInLoop(old(Abs()), message, n)
      ensures out.data == old(out.data) || fresh(out.data)
    {
      SendConserves(Abs(), message, n);
      var nwrote := TryWrite(message, n);
      accepted := accepted + message;
      KeepRest(message[nwrote..]);
    }

    /** The direct write, when nothing is waiting to be written. */
    method TryWrite(message: Bytes, n: int) returns (nwrote: nat)
      requires out.Valid() && n <= |message|
      modifies `wire
      ensures nwrote == if !writing && out.Contents() == [] then Taken(n) else 0
      ensures wire == old(wire) + message[..nwrote]
    {
      nwrote := 0;
      if !writing && out.Readable() == 0 {
        if n >= 0 {
          nwrote := n;
        }
        wire := wire + message[..nwrote];
      }
    }

    method KeepRest(rest: Bytes)
      requires out.Valid()
      modifies `writing, out, out.data
      ensures out.Valid() && (out.data == old(out.data) || fresh(out.data))
      ensures out.Contents() == old(out.Contents()) + rest && writing == (old(writing) || rest != [])
    {
      if |rest| > 0 {
        out.Append(rest);
        if !writing {
          writing := true;
        }
      }
    }

    /** `send` on the loop thread, when no other thread comes between. */
    method DoSend(message: Bytes, n: int)
      requires Valid() && n <= |message|
      modifies this, out, out.data
      ensures Valid() && (out.data == old(out.data) || fresh(out.data))
      ensures Abs() == if old(state).Connected? then SendInLoop(old(Abs()), message, n) else old(Abs())
    {
      if state.Connected? {
        DoSendInLoop(message, n);
      }
    }

    method DoShutdownInLoop()
      requires Valid()
      modifies this
      ensures Valid() && Abs() == ShutdownInLoop(old(Abs()))
    {
      if !writing {
        halfCloses := halfCloses + 1;
      }
    }

    /** `shutdown` on the loop thread. */
    method DoShutdown()
      requires Valid()
      modifies this
      ensures Valid()
      ensures Abs() == if old(state).Connected? then ShutdownInLoop(old(Abs()).(state := Disconnecting)) else old(Abs())
    {
      if state.Connected? {
        state := Disconnecting;
        DoShutdownInLoop();
      }
    }

    /** The test at the beginning of a call, on the loop thread or another. */
    method EnterCall(call: Call, inLoopThread: bool)
      requires Valid() && (inLoopThread ==> own.None?)
      modifies this
      ensures Valid() && Abs() == Next(old(Abs()), if inLoopThread then OwnCall(call) else OtherCall(call))
    {
      var open := state.Connected? || (call.ForceCloseCall? && state.Disconnecting?);
      if open && inLoopThread {
        own := Some(Passed(call));
      } else if open {
        others := others + [Passed(call)];
      }
    }

    /** The loop thread goes on with its call. */
    method DoOwnStep(n: int)
      requires Valid() && Enabled(Abs(), OwnStep(n))
      modifies this, out, out.data
      ensures Valid() && Abs() == Next(old(Abs()), OwnStep(n))
      ensures out.data == old(out.data) || fresh(out.data)
    {
      var step := own.value;
      own := None;
      match step {
        case Passed(SendCall(message)) => DoSendInLoop(message, n);
        case Passed(call) => state, own := Disconnecting, Some(Changed(call.ForceCloseCall?));
        case Changed(true) => queued := queued + [ForceCloseTask];
        case Changed(false) => DoShutdownInLoop();
      }
    }

    /** Another thread goes on with its call. */
    method DoOtherStep(i: nat)
      requires Valid() && i < |others|
      modifies this
      ensures Valid() && Abs() == Next(old(Abs()), OtherStep(i))
    {
      match others[i] {
        case Passed(SendCall(message)) =>
          others := others[..i] + others[i + 1..];
          queued := queued + [SendTask(message)];
        case Passed(call) =>
          state := Disconnecting;
          others := others[i := Changed(call.ForceCloseCall?)];
        case Changed(force) =>
          others := others[..i] + others[i + 1..];
          queued := queued + [if force then ForceCloseTask else ShutdownTask];
      }
    }

    method DoHandleWrite(n: int)
      requires Valid() && n <= out.Readable() && own.None?
      modifies this, out
      ensures Valid() && Abs() == Next(old(Abs()), Writable(n)) && out.data == old(out.data)
    {
      NextConserves(Abs(), Writable(n));
      if writing {
        if n > 0 {
          wire := wire + out.Contents()[..n];
          out.Retrieve(n);
          if out.Readable() == 0 {
            writing := false;
            if state.Disconnecting? {
              DoShutdownInLoop();
            }
          }
        }
      }
    }

    method DoHandleClose()
      requires Valid() && Open(Abs()) && own.None?
      modifies this
      ensures Valid() && Abs() == Next(old(Abs()), Close)
    {
      reading, writing, closed := false, false, true;
    }

    method ConnectDestroyed()
      requires Valid() && Open(Abs()) && own.None?
      modifies this
      ensures Valid() && Abs() == Next(old(Abs()), Destroy)
    {
      state := Disconnected;
      reading, writing, closed := false, false, true;
    }

    method RunNextQueued(n: int)
      requires Valid() && Enabled(Abs(), RunQueued(n))
      modifies this, out, out.data
      ensures Valid() && Abs() == Next(old(Abs()), RunQueued(n))
      ensures out.data == old(out.data) || fresh(out.data)
    {
      var task := queued[0];
      queued := queued[1..];
      match task {
        case SendTask(message) => DoSendInLoop(message, n);
        case ShutdownTask => DoShutdownInLoop();
        case ForceCloseTask => if state.Connected? || state.Disconnecting? { DoHandleClose(); }
      }
    }
  }

  method Handle(c: TcpConnection, e: Event)
    requires c.Valid() && Enabled(c.Abs(), e)
    modifies c, c.out, c.out.data
    ensures c.Valid() && c.Abs() == Next(old(c.Abs()), e)
    ensures c.out.data == old(c.out.data) || fresh(c.out.data)
  {
    match e {
      case Establish => c.ConnectEstablished();
      case OwnCall(call) => c.EnterCall(call, true);
      case OwnStep(n) => c.DoOwnStep(n);
      case OtherCall(call) => c.EnterCall(call, false);
      case OtherStep(i) => c.DoOtherStep(i);
      case RunQueued(n) => c.RunNextQueued(n);
      case Writable(n) => c.DoHandleWrite(n);
      case Close => c.DoHandleClose();
      case Destroy => c.ConnectDestroyed();
    }
  }

  /** The object goes through every run as the functions do, over its real buffer, so
      what is proved of runs holds of it. */
  method HandleAll(c: TcpConnection, es: seq<Event>)
    requires c.Valid() && Legal(c.Abs(), es)
    modifies c, c.out, c.out.data
    ensures c.Valid() && c.Abs() == Exec(old(c.Abs()), es)
    ensures c.out.data == old(c.out.data) || fresh(c.out.data)
  {
    ghost var last := Exec(c.Abs(), es);
    var rest := es;
    while rest != []
      invariant c.Valid() && (c.out.data == old(c.out.data) || fresh(c.out.data))
      invariant Legal(c.Abs(), rest) && Exec(c.Abs(), rest) == last
      decreases |rest|
    {
      Handle(c, rest[0]);
      rest := rest[1..];
    }
  }
}
