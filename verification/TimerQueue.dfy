/** The timer queue: two ordered sets over the same heap-allocated timers, a one-shot
    timerfd, and callbacks that may add and cancel timers while a batch of expired
    ones is being run.  Times are integer microseconds; `heap` holds the allocated
    Timer objects, so a lookup outside it would be a use after free and a `Free`
    outside it a double free. */
module TimerQueues {
  import opened Options

  type Address = nat

  datatype Timer = Timer(expiration: int, delta: nat, repeat: bool, sequence: nat)

  /** An element of `m_timers`, ordered by time and then by address. */
  datatype Entry = Entry(when: int, timer: Address)

  predicate Before(a: Entry, b: Entry) {
    a.when < b.when || (a.when == b.when && a.timer < b.timer)
  }

  predicate Sorted(ts: seq<Entry>) {
    forall i, j :: 0 <= i < j < |ts| ==> Before(ts[i], ts[j])
  }

  function Insert(ts: seq<Entry>, e: Entry): (r: seq<Entry>)
    ensures forall x :: x in r <==> x == e || x in ts
    ensures |r| == |ts| + 1
    ensures Sorted(ts) && e !in ts ==> Sorted(r)
    ensures r[0] == if ts == [] || Before(e, ts[0]) then e else ts[0]
  {
    if ts == [] || Before(e, ts[0]) then [e] + ts
    else
      assert ts == [ts[0]] + ts[1..];
      [ts[0]] + Insert(ts[1..], e)
  }

  function Remove(ts: seq<Entry>, e: Entry): (r: seq<Entry>)
    requires Sorted(ts) && e in ts
    ensures forall x :: x in r <==> x != e && x in ts
    ensures |r| == |ts| - 1 && Sorted(r)
  {
    assert ts == [ts[0]] + ts[1..];
    if ts[0] == e then ts[1..]
    else
      var rest := Remove(ts[1..], e);
      assert forall x :: x in rest ==> Before(ts[0], x);
      [ts[0]] + rest
  }

  /** How many entries `lower_bound((now, UINTPTR_MAX))` leaves in front of it. */
  function DueCount(ts: seq<Entry>, now: int): (n: nat)
    requires Sorted(ts)
    ensures n <= |ts|
    ensures forall i :: 0 <= i < n ==> ts[i].when <= now
    ensures forall i :: n <= i < |ts| ==> ts[i].when > now
    ensures forall e :: e in ts ==> (e in ts[..n] <==> e.when <= now)
  {
    if ts == [] || ts[0].when > now then 0 else 1 + DueCount(ts[1..], now)
  }

  function Addresses(ts: seq<Entry>): set<Address> {
    set e | e in ts :: e.timer
  }

  function ActiveOf(ts: seq<Entry>, heap: map<Address, Timer>): set<(Address, nat)> {
    set e | e in ts && e.timer in heap :: (e.timer, heap[e.timer].sequence)
  }

  /** Each entry names its own live timer and carries its current expiration. */
  predicate Current(ts: seq<Entry>, heap: map<Address, Timer>) {
    forall e :: e in ts ==> e.timer in heap && heap[e.timer].expiration == e.when
  }

  /** The two sets have one element for each entry. */
  lemma {:induction false} SetsHaveSameSize(ts: seq<Entry>, heap: map<Address, Timer>)
    requires Sorted(ts) && Current(ts, heap)
    ensures |ActiveOf(ts, heap)| == |ts|
  {
    if ts == [] {
    } else {
      var rest := ts[1..];
      SetsHaveSameSize(rest, heap);
      assert ts == [ts[0]] + rest;
      var one := (ts[0].timer, heap[ts[0].timer].sequence);
      assert one !in ActiveOf(rest, heap) by {
        assert forall e :: e in rest ==> Before(ts[0], e);
      }
      assert ActiveOf(ts, heap) == {one} + ActiveOf(rest, heap);
    }
  }

  /** Every live timer is in the two sets, in the batch in flight, or on its way in,
      and in only one of them. */
  ghost predicate OneOwner(heap: map<Address, Timer>, ts: seq<Entry>, batch: seq<Entry>, waiting: set<Address>) {
    && heap.Keys == Addresses(ts) + Addresses(batch) + waiting
    && Addresses(ts) !! Addresses(batch) !! waiting
    && Distinct(batch)
  }

  predicate Distinct(batch: seq<Entry>) {
    forall i, j :: 0 <= i < j < |batch| ==> batch[i].timer != batch[j].timer
  }

  predicate Numbered(heap: map<Address, Timer>, created: nat) {
    forall a :: a in heap ==> 1 <= heap[a].sequence <= created
  }

  lemma InsertEffect(heap: map<Address, Timer>, ts: seq<Entry>, e: Entry)
    requires Sorted(ts) && Current(ts, heap) && Current([e], heap) && e.timer !in Addresses(ts)
    ensures e !in ts && Sorted(Insert(ts, e)) && Current(Insert(ts, e), heap)
    ensures Addresses(Insert(ts, e)) == Addresses(ts) + {e.timer}
    ensures ActiveOf(Insert(ts, e), heap) == ActiveOf(ts, heap) + {(e.timer, heap[e.timer].sequence)}
    ensures (e.timer, heap[e.timer].sequence) !in ActiveOf(ts, heap)
  {
    assert e in [e];
    assert e !in ts;
  }

  lemma RemoveEffect(heap: map<Address, Timer>, ts: seq<Entry>, e: Entry)
    requires Sorted(ts) && Current(ts, heap) && e in ts
    ensures Addresses(Remove(ts, e)) == Addresses(ts) - {e.timer}
    ensures Current(Remove(ts, e), heap - {e.timer})
    ensures ActiveOf(Remove(ts, e), heap - {e.timer}) == ActiveOf(ts, heap) - {(e.timer, heap[e.timer].sequence)}
  {
    forall x | x in ts && x.timer == e.timer ensures x == e {}
  }

  lemma TakeEffect(heap: map<Address, Timer>, ts: seq<Entry>, n: nat)
    requires Sorted(ts) && Current(ts, heap) && n <= |ts|
    ensures Sorted(ts[n..]) && Current(ts[..n], heap) && Current(ts[n..], heap) && Distinct(ts[..n])
    ensures Addresses(ts) == Addresses(ts[..n]) + Addresses(ts[n..])
    ensures Addresses(ts[..n]) !! Addresses(ts[n..])
  {
    assert ts == ts[..n] + ts[n..];
    assert forall i, j :: 0 <= i < j < |ts| ==> Before(ts[i], ts[j]) && ts[i] in ts && ts[j] in ts;
    forall a, b | a in ts[..n] && b in ts[n..] ensures a.timer != b.timer {
      assert Before(a, b) && a in ts && b in ts;
    }
  }

  lemma DropFirst(heap: map<Address, Timer>, ts: seq<Entry>, i: nat)
    requires Sorted(ts) && Current(ts, heap) && i < |ts|
    ensures var pair := (ts[i].timer, heap[ts[i].timer].sequence);
      pair in ActiveOf(ts[i..], heap) && ActiveOf(ts[i + 1..], heap) == ActiveOf(ts[i..], heap) - {pair}
  {
    assert ts[i..] == [ts[i]] + ts[i + 1..];
    forall e | e in ts[i + 1..] ensures e.timer != ts[i].timer {
      assert Before(ts[i], e) && e in ts;
    }
  }

  /** The first timer of the batch is restarted and goes back into the sets. */
  lemma RestartEffect(heap: map<Address, Timer>, ts: seq<Entry>, batch: seq<Entry>, waiting: set<Address>, t: Timer)
    requires OneOwner(heap, ts, batch, waiting) && Sorted(ts) && Current(ts, heap) && batch != []
    ensures var a := batch[0].timer; var heap' := heap[a := t];
      && a in heap && a !in Addresses(ts)
      && Current(ts, heap') && ActiveOf(ts, heap') == ActiveOf(ts, heap)
      && OneOwner(heap', Insert(ts, Entry(t.expiration, a)), batch[1..], waiting)
  {
    var a := batch[0].timer;
    assert batch == [batch[0]] + batch[1..];
    assert a in Addresses(batch);
    assert Addresses(batch) == {a} + Addresses(batch[1..]);
    assert a !in Addresses(batch[1..]);
    assert Addresses(Insert(ts, Entry(t.expiration, a))) == Addresses(ts) + {a};
  }

  lemma RenumberEffect(heap: map<Address, Timer>, created: nat, a: Address, t: Timer)
    requires Numbered(heap, created) && a in heap && t.sequence == heap[a].sequence
    ensures Numbered(heap[a := t], created)
  {
  }

  /** The first timer of the batch is freed. */
  lemma FreeEffect(heap: map<Address, Timer>, ts: seq<Entry>, batch: seq<Entry>, waiting: set<Address>)
    requires OneOwner(heap, ts, batch, waiting) && Sorted(ts) && Current(ts, heap) && batch != []
    ensures var a := batch[0].timer; var heap' := heap - {a};
      && a in heap && a !in Addresses(ts)
      && Current(ts, heap') && ActiveOf(ts, heap') == ActiveOf(ts, heap)
      && OneOwner(heap', ts, batch[1..], waiting)
  {
    var a := batch[0].timer;
    assert batch == [batch[0]] + batch[1..];
    assert a in Addresses(batch);
    assert Addresses(batch) == {a} + Addresses(batch[1..]);
    assert a !in Addresses(batch[1..]);
  }

  /** After the batch: a repeating timer is queued again, a one-shot timer is gone. */
  predicate Restarted(before: map<Address, Timer>, e: Entry, now: int, heap: map<Address, Timer>, ts: seq<Entry>) {
    e.timer in before &&
    var t := before[e.timer];
    if t.repeat then
      && e.timer in heap && heap[e.timer] == t.(expiration := now + t.delta)
      && Entry(now + t.delta, e.timer) in ts
    else
      e.timer !in heap
  }

  /** Where a repeating timer of the batch goes. */
  function Again(before: map<Address, Timer>, e: Entry, now: int): Entry
    requires e.timer in before
  {
    Entry(now + before[e.timer].delta, e.timer)
  }

  /** Nothing is queued but what was queued before and the repeating timers of the batch. */
  ghost predicate OnlyRestarted(before: map<Address, Timer>, t1: seq<Entry>, batch: seq<Entry>, now: int, t2: seq<Entry>) {
    forall x :: x in t2 ==>
      (x in t1 || exists e :: e in batch && e.timer in before && before[e.timer].repeat && x == Again(before, e, now))
  }

  lemma OneMoreRestarted(before: map<Address, Timer>, t0: seq<Entry>, batch: seq<Entry>, now: int, i: nat,
                         h1: map<Address, Timer>, t1: seq<Entry>, t2: seq<Entry>)
    requires i < |batch| && OnlyRestarted(before, t0, batch, now, t1) && Same(before, h1, batch[i].timer)
    requires forall e :: e in t2 ==> e in t1 || (h1[batch[i].timer].repeat && e == Again(h1, batch[i], now))
    ensures OnlyRestarted(before, t0, batch, now, t2)
  {
    assert batch[i] in batch;
  }

  predicate Same(before: map<Address, Timer>, heap: map<Address, Timer>, a: Address) {
    a in before && a in heap && heap[a] == before[a]
  }

  lemma SameStays(before: map<Address, Timer>, h1: map<Address, Timer>, h2: map<Address, Timer>, other: Address, a: Address)
    requires Same(before, h1, a) && other != a && h1 - {other} == h2 - {other}
    ensures Same(before, h2, a)
  {
    assert a in h1 - {other} && a in h2 - {other};
  }

  /** Handling another timer of the batch does not undo this one. */
  lemma RestartedStays(before: map<Address, Timer>, e: Entry, now: int, other: Address,
                       h1: map<Address, Timer>, t1: seq<Entry>, h2: map<Address, Timer>, t2: seq<Entry>)
    requires Restarted(before, e, now, h1, t1) && other != e.timer
    requires h1 - {other} == h2 - {other} && forall x :: x in t1 ==> x in t2
    ensures Restarted(before, e, now, h2, t2)
  {
    assert e.timer in h1 <==> e.timer in h1 - {other};
    assert e.timer in h2 <==> e.timer in h2 - {other};
  }

  lemma SplitFirst(heap: map<Address, Timer>, ts: seq<Entry>, i: nat)
    requires Sorted(ts) && Current(ts, heap) && i < |ts|
    ensures Addresses(ts[i..]) == {ts[i].timer} + Addresses(ts[i + 1..]) && ts[i].timer !in Addresses(ts[i + 1..])
  {
    DropFirst(heap, ts, i);
    assert ts[i..] == [ts[i]] + ts[i + 1..];
    forall e | e in ts[i + 1..] ensures e.timer != ts[i].timer {
      assert Before(ts[i], e) && e in ts;
    }
  }

  /** How far `reset` has come: `i` timers handled, the others as they were. */
  predicate BatchState(before: map<Address, Timer>, batch: seq<Entry>, i: nat, now: int,
                       heap: map<Address, Timer>, ts: seq<Entry>)
  {
    && (forall k :: i <= k < |batch| ==> Same(before, heap, batch[k].timer))
    && (forall k :: 0 <= k < i && k < |batch| ==> Restarted(before, batch[k], now, heap, ts))
  }

  lemma BatchStep(before: map<Address, Timer>, batch: seq<Entry>, i: nat, now: int,
                  h1: map<Address, Timer>, t1: seq<Entry>, h2: map<Address, Timer>, t2: seq<Entry>)
    requires Distinct(batch) && i < |batch| && BatchState(before, batch, i, now, h1, t1)
    requires Restarted(h1, batch[i], now, h2, t2)
    requires h1 - {batch[i].timer} == h2 - {batch[i].timer} && forall x :: x in t1 ==> x in t2
    ensures BatchState(before, batch, i + 1, now, h2, t2)
  {
    var other := batch[i].timer;
    assert Same(before, h1, other);
    forall k | 0 <= k < i ensures Restarted(before, batch[k], now, h2, t2) {
      RestartedStays(before, batch[k], now, other, h1, t1, h2, t2);
    }
    forall k | i < k < |batch| ensures Same(before, h2, batch[k].timer) {
      SameStays(before, h1, h2, other, batch[k].timer);
    }
  }

  /** The batch as a whole was handled, seen from before its callbacks ran. */
  lemma BatchDone(before: map<Address, Timer>, after: map<Address, Timer>, batch: seq<Entry>, now: int,
                  heap: map<Address, Timer>, ts: seq<Entry>)
    requires forall e :: e in batch ==> Same(before, after, e.timer)
    requires forall e :: e in batch ==> Restarted(after, e, now, heap, ts)
    ensures forall e :: e in batch ==> Restarted(before, e, now, heap, ts)
  {
  }

  /** An alarm that covers some earliest time also covers every later one. */
  ghost predicate Covers(alarm: Option<Alarm>, readable: bool, ts: seq<Entry>) {
    ts == [] || readable ||
    (alarm.Some? && alarm.value.deadline <= Max(ts[0].when, alarm.value.at + MIN_DELAY))
  }

  ghost predicate CoversPast(alarm: Option<Alarm>, readable: bool, ts: seq<Entry>) {
    ts != [] && ts[0].when <= 0 ==> Covers(alarm, readable, ts)
  }

  lemma InsertKeepsCoverPast(alarm: Option<Alarm>, readable: bool, ts: seq<Entry>, e: Entry)
    requires e.when > 0 && CoversPast(alarm, readable, ts)
    ensures CoversPast(alarm, readable, Insert(ts, e))
  {
  }

  lemma RemoveKeepsCover(alarm: Option<Alarm>, readable: bool, ts: seq<Entry>, e: Entry)
    requires Sorted(ts) && e in ts
    ensures Covers(alarm, readable, ts) ==> Covers(alarm, readable, Remove(ts, e))
    ensures Remove(ts, e) != [] ==> ts[0].when <= Remove(ts, e)[0].when
  {
    var r := Remove(ts, e);
    if r != [] {
      assert r[0] in r && r[0] in ts;
    }
  }

  const MIN_DELAY := 100

  function Delay(when: int, clock: int): (d: int)
    ensures d >= MIN_DELAY && d >= when - clock
  {
    if when - clock < MIN_DELAY then MIN_DELAY else when - clock
  }

  /** `howMuchTimeFromNow`: seconds and nanoseconds until `when`. */
  function HowMuchTimeFromNow(when: int, clock: int): (r: (int, int))
    ensures 0 <= r.1 < 1_000_000_000
    ensures r.0 * 1_000_000_000 + r.1 == Delay(when, clock) * 1000
    ensures r != (0, 0)  // which would disarm the timerfd
  {
    var us := Delay(when, clock);
    (us / 1_000_000, us % 1_000_000 * 1000)
  }

  /** The timerfd was set at time `at` to expire at `deadline`. */
  datatype Alarm = Alarm(at: int, deadline: int)

  function Max(a: int, b: int): int {
    if a >= b then a else b
  }

  /** What a callback does with the queue. */
  datatype Call =
    | Add(address: Address, when: int, delta: nat, repeat: bool, clock: int)
    | Cancel(address: Address, sequence: nat)

  /** Some of these calls cancels this (timer, sequence) pair. */
  predicate Cancels(calls: seq<Call>, pair: (Address, nat)) {
    Cancel(pair.0, pair.1) in calls
  }

  predicate ScriptCancels(script: seq<seq<Call>>, pair: (Address, nat)) {
    exists i :: 0 <= i < |script| && Cancels(script[i], pair)
  }

  ghost function Targets(calls: seq<Call>): iset<(Address, nat)> {
    iset pair | Cancels(calls, pair)
  }

  ghost function ScriptTargets(script: seq<seq<Call>>): iset<(Address, nat)> {
    iset pair | ScriptCancels(script, pair)
  }

  /** The repeating timers that no cancellation names are still there, the same but for
      their next expiration. */
  ghost predicate Repeating(before: map<Address, Timer>, heap: map<Address, Timer>, targets: iset<(Address, nat)>) {
    forall a :: a in before && before[a].repeat && (a, before[a].sequence) !in targets ==>
      a in heap && heap[a] == before[a].(expiration := heap[a].expiration)
  }

  /** The queued timers that no cancellation names and no read found due are still queued
      and unchanged. */
  ghost predicate Kept(h1: map<Address, Timer>, t1: seq<Entry>, h2: map<Address, Timer>, t2: seq<Entry>,
                       targets: iset<(Address, nat)>, due: iset<int>) {
    forall e :: e in t1 && e.timer in h1 && (e.timer, h1[e.timer].sequence) !in targets && e.when !in due ==>
      e in t2 && Same(h1, h2, e.timer)
  }

  /** Sequences are never used again: every timer is an old one, or newer than all of them. */
  ghost predicate Descends(h1: map<Address, Timer>, created: nat, h2: map<Address, Timer>, later: nat) {
    created <= later &&
    forall a :: a in h2 ==> (a in h1 && h2[a].sequence == h1[a].sequence) || h2[a].sequence > created
  }

  predicate Alive(heap: map<Address, Timer>, a: Address, sequence: nat) {
    a in heap && heap[a].sequence == sequence
  }

  /** Of the queued timers exactly those that a cancellation names are gone; the others are
      still queued and unchanged. */
  ghost predicate KeptExactly(h1: map<Address, Timer>, t1: seq<Entry>, h2: map<Address, Timer>, t2: seq<Entry>,
                              targets: iset<(Address, nat)>) {
    forall e :: e in t1 && e.timer in h1 ==>
      if (e.timer, h1[e.timer].sequence) in targets then !Alive(h2, e.timer, h1[e.timer].sequence)
      else e in t2 && Same(h1, h2, e.timer)
  }

  /** What is gone stays gone, for sequences are never used again. */
  lemma KeepingExactlyGoesOn(h0: map<Address, Timer>, t0: seq<Entry>, c0: nat, h1: map<Address, Timer>, t1: seq<Entry>, c1: nat,
                             h2: map<Address, Timer>, t2: seq<Entry>, c2: nat,
                             targets: iset<(Address, nat)>, more: iset<(Address, nat)>)
    requires Numbered(h0, c0) && Descends(h0, c0, h1, c1) && Descends(h1, c1, h2, c2)
    requires KeptExactly(h0, t0, h1, t1, targets) && KeptExactly(h1, t1, h2, t2, more)
    ensures KeptExactly(h0, t0, h2, t2, targets + more) && Descends(h0, c0, h2, c2)
  {
    forall e | e in t0 && e.timer in h0
      ensures if (e.timer, h0[e.timer].sequence) in targets + more then !Alive(h2, e.timer, h0[e.timer].sequence)
        else e in t2 && Same(h0, h2, e.timer)
    {
      if (e.timer, h0[e.timer].sequence) !in targets {
        assert e in t1 && Same(h0, h1, e.timer);
      }
    }
  }

  /** The scripts of the first `n` callbacks. */
  function Ran(script: seq<seq<Call>>, n: nat): seq<seq<Call>> {
    if n <= |script| then script[..n] else script
  }

  function CallsOf(script: seq<seq<Call>>, i: nat): seq<Call> {
    if i < |script| then script[i] else []
  }

  lemma OneMoreTarget(calls: seq<Call>, i: nat)
    requires i < |calls|
    ensures Targets(calls[..i + 1]) == Targets(calls[..i]) + Targets([calls[i]])
  {
    assert calls[..i + 1] == calls[..i] + [calls[i]];
  }

  lemma OneMoreScript(script: seq<seq<Call>>, i: nat)
    ensures ScriptTargets(Ran(script, i + 1)) == ScriptTargets(Ran(script, i)) + Targets(CallsOf(script, i))
  {
    if i < |script| {
      var few, more := Ran(script, i), Ran(script, i + 1);
      assert more == few + [script[i]];
      forall pair: (Address, nat)
        ensures ScriptCancels(more, pair) <==> ScriptCancels(few, pair) || Cancels(script[i], pair)
      {
        AppendedScript(few, script[i], pair);
      }
    } else {
      assert Targets([]) == iset{};
    }
  }

  lemma AppendedScript(script: seq<seq<Call>>, calls: seq<Call>, pair: (Address, nat))
    ensures ScriptCancels(script + [calls], pair) <==> ScriptCancels(script, pair) || Cancels(calls, pair)
  {
    var more := script + [calls];
    assert more[|script|] == calls;
    if k :| 0 <= k < |script| && Cancels(script[k], pair) {
      assert Cancels(more[k], pair);
    }
  }

  /** Forgetting which timers were cancelled, and counting scripts that did not run. */
  lemma KeptOfExactly(h1: map<Address, Timer>, t1: seq<Entry>, h2: map<Address, Timer>, t2: seq<Entry>,
                      script: seq<seq<Call>>, n: nat)
    requires KeptExactly(h1, t1, h2, t2, ScriptTargets(Ran(script, n)))
    ensures Kept(h1, t1, h2, t2, ScriptTargets(script), iset{})
  {
    forall pair | ScriptCancels(Ran(script, n), pair) ensures ScriptCancels(script, pair) {
      var k :| 0 <= k < |Ran(script, n)| && Cancels(Ran(script, n)[k], pair);
      assert Cancels(script[k], pair);
    }
  }

  /** The queued one-shot timers that a read found due, and nobody cancelled, are gone. */
  ghost predicate OneShotsGone(h1: map<Address, Timer>, t1: seq<Entry>, h2: map<Address, Timer>,
                               targets: iset<(Address, nat)>, due: iset<int>) {
    forall e :: e in t1 && e.timer in h1 && !h1[e.timer].repeat && e.when in due ==>
      (e.timer, h1[e.timer].sequence) in targets || !Alive(h2, e.timer, h1[e.timer].sequence)
  }

  predicate NotAfter(when: int, now: int) {
    when <= now
  }

  ghost function UpTo(now: int): iset<int> {
    iset when | NotAfter(when, now)
  }

  /** What is kept of the timers that are not due is kept of all, but for those due. */
  lemma WidenKept(h0: map<Address, Timer>, t0: seq<Entry>, rest: seq<Entry>, now: int,
                  h1: map<Address, Timer>, t1: seq<Entry>, targets: iset<(Address, nat)>)
    requires forall e :: e in t0 && !NotAfter(e.when, now) ==> e in rest
    requires Kept(h0, rest, h1, t1, targets, iset{})
    ensures Kept(h0, t0, h1, t1, targets, UpTo(now))
  {
  }

  lemma ExactlyOfKept(h1: map<Address, Timer>, t1: seq<Entry>, h2: map<Address, Timer>, t2: seq<Entry>)
    requires Kept(h1, t1, h2, t2, iset{}, iset{})
    ensures KeptExactly(h1, t1, h2, t2, iset{})
  {
  }

  lemma NothingMore(targets: iset<(Address, nat)>)
    ensures targets + iset{} == targets
  {
  }

  lemma DescentGoesOn(h0: map<Address, Timer>, c0: nat, h1: map<Address, Timer>, c1: nat, h2: map<Address, Timer>, c2: nat)
    requires Descends(h0, c0, h1, c1) && Descends(h1, c1, h2, c2)
    ensures Descends(h0, c0, h2, c2)
  {
  }

  lemma RestNotDue(ts: seq<Entry>, now: int)
    requires Sorted(ts)
    ensures forall e :: e in ts && !NotAfter(e.when, now) ==> e in ts[DueCount(ts, now)..]
  {
    assert ts == ts[..DueCount(ts, now)] + ts[DueCount(ts, now)..];
  }

  lemma DueAreGone(h1: map<Address, Timer>, ts: seq<Entry>, now: int, h2: map<Address, Timer>, t2: seq<Entry>)
    requires Sorted(ts) && forall e :: e in ts[..DueCount(ts, now)] ==> Restarted(h1, e, now, h2, t2)
    ensures OneShotsGone(h1, ts, h2, iset{}, UpTo(now))
  {
    forall e | e in ts && e.timer in h1 && !h1[e.timer].repeat && e.when in UpTo(now)
      ensures e.timer !in h2
    {
      assert e in ts[..DueCount(ts, now)];
    }
  }

  lemma RestartKeeps(h1: map<Address, Timer>, t1: seq<Entry>, h2: map<Address, Timer>, t2: seq<Entry>, a: Address)
    requires h1 - {a} == h2 - {a} && a !in Addresses(t1) && forall e :: e in t1 ==> e in t2
    ensures Kept(h1, t1, h2, t2, iset{}, iset{})
  {
    forall e | e in t1 && e.timer in h1 ensures Same(h1, h2, e.timer) {
      assert e.timer in Addresses(t1);
      assert e.timer in h1 - {a} && e.timer in h2 - {a};
    }
  }

  lemma RestartDescends(h1: map<Address, Timer>, e: Entry, now: int, created: nat, h2: map<Address, Timer>, ts: seq<Entry>)
    requires Restarted(h1, e, now, h2, ts) && h1 - {e.timer} == h2 - {e.timer}
    ensures Descends(h1, created, h2, created)
  {
    forall a | a in h2 ensures a in h1 && h2[a].sequence == h1[a].sequence {
      assert a == e.timer || a in h2 - {e.timer};
    }
  }

  lemma RepeatingGoesOn(h0: map<Address, Timer>, h1: map<Address, Timer>, h2: map<Address, Timer>,
                        script: seq<seq<Call>>, i: nat)
    requires Repeating(h0, h1, ScriptTargets(script)) && Repeating(h1, h2, Targets(CallsOf(script, i)))
    ensures Repeating(h0, h2, ScriptTargets(script))
  {
    forall pair | Cancels(CallsOf(script, i), pair) ensures ScriptCancels(script, pair) {
      assert Cancels(script[i], pair);
    }
  }

  lemma RestartKeepsRepeating(before: map<Address, Timer>, e: Entry, now: int, heap: map<Address, Timer>, ts: seq<Entry>)
    requires Restarted(before, e, now, heap, ts) && before - {e.timer} == heap - {e.timer}
    ensures Repeating(before, heap, iset{})
  {
    forall a | a in before && before[a].repeat
      ensures a in heap && heap[a] == before[a].(expiration := heap[a].expiration)
    {
      assert a == e.timer || a in before - {e.timer};
    }
  }

  /** The part of the queue that the calls of callbacks change. */
  datatype Queue = Queue(heap: map<Address, Timer>, timers: seq<Entry>, created: nat)

  predicate Sound(q: Queue) {
    Sorted(q.timers) && Current(q.timers, q.heap) && Numbered(q.heap, q.created)
  }

  predicate IsQueued(q: Queue, a: Address) {
    a in q.heap && Entry(q.heap[a].expiration, a) in q.timers
  }

  /** One call: an addition takes a free block, a cancellation needs the true sequence of
      a queued timer. */
  function AfterCall(q: Queue, call: Call): Queue {
    match call
    case Add(address, when, delta, repeat, _) =>
      if address in q.heap then q
      else Queue(q.heap[address := Timer(when, delta, repeat, q.created + 1)], Insert(q.timers, Entry(when, address)), q.created + 1)
    case Cancel(address, sequence) =>
      if IsQueued(q, address) && q.heap[address].sequence == sequence && Sorted(q.timers) then
        Queue(q.heap - {address}, Remove(q.timers, Entry(q.heap[address].expiration, address)), q.created)
      else q
  }

  function AfterCalls(q: Queue, calls: seq<Call>): Queue {
    if calls == [] then q else AfterCall(AfterCalls(q, calls[..|calls| - 1]), calls[|calls| - 1])
  }

  lemma CallsOneByOne(q: Queue, calls: seq<Call>, call: Call)
    ensures AfterCalls(q, calls + [call]) == AfterCall(AfterCalls(q, calls), call)
  {
    assert (calls + [call])[..|calls|] == calls;
  }

  /** The callbacks of the first `n` timers of a batch. */
  function AfterScript(q: Queue, script: seq<seq<Call>>, n: nat): Queue {
    if n == 0 then q else AfterCalls(AfterScript(q, script, n - 1), CallsOf(script, n - 1))
  }

  lemma ScriptOneByOne(q: Queue, script: seq<seq<Call>>, i: nat)
    ensures AfterScript(q, script, i + 1) == AfterCalls(AfterScript(q, script, i), CallsOf(script, i))
  {
  }

  /** An addition to a free block: exactly this timer is queued, as new as can be, and the
      others are kept. */
  lemma AddedIsQueued(q: Queue, call: Call)
    requires Sound(q) && call.Add? && call.address !in q.heap
    ensures var t := AfterCall(q, call);
      && IsQueued(t, call.address)
      && t.heap[call.address] == Timer(call.when, call.delta, call.repeat, t.created) && t.created > q.created
      && (forall e :: e in t.timers <==> e in q.timers || e == Entry(call.when, call.address))
      && (forall a :: a in t.heap <==> a in q.heap || a == call.address)
      && KeptExactly(q.heap, q.timers, t.heap, t.timers, iset{})
  {
  }

  lemma CallKeeps(q: Queue, call: Call)
    requires Sound(q)
    ensures var t := AfterCall(q, call);
      && Sound(t) && KeptExactly(q.heap, q.timers, t.heap, t.timers, Targets([call]))
      && Descends(q.heap, q.created, t.heap, t.created) && Repeating(q.heap, t.heap, Targets([call]))
  {
    assert call in [call];
    match call {
      case Add(address, when, delta, repeat, _) =>
        if address !in q.heap {
          InsertEffect(AfterCall(q, call).heap, q.timers, Entry(when, address));
        }
      case Cancel(address, sequence) =>
        if IsQueued(q, address) && q.heap[address].sequence == sequence {
          RemoveEffect(q.heap, q.timers, Entry(q.heap[address].expiration, address));
        }
    }
  }

  lemma {:induction false} CallsKeep(q: Queue, calls: seq<Call>)
    requires Sound(q)
    ensures var t := AfterCalls(q, calls);
      && Sound(t) && KeptExactly(q.heap, q.timers, t.heap, t.timers, Targets(calls))
      && Descends(q.heap, q.created, t.heap, t.created) && Repeating(q.heap, t.heap, Targets(calls))
  {
    if calls == [] {
    } else {
      var n := |calls| - 1;
      var front, call := calls[..n], calls[n];
      var m, t := AfterCalls(q, front), AfterCalls(q, calls);
      CallsKeep(q, front);
      CallKeeps(m, call);
      OneMoreTarget(calls, n);
      assert calls[..n + 1] == calls;
      KeepingExactlyGoesOn(q.heap, q.timers, q.created, m.heap, m.timers, m.created, t.heap, t.timers, t.created,
                           Targets(front), Targets([call]));
    }
  }

  lemma {:induction false} ScriptKeeps(q: Queue, script: seq<seq<Call>>, n: nat)
    requires Sound(q)
    ensures var t := AfterScript(q, script, n);
      && Sound(t) && KeptExactly(q.heap, q.timers, t.heap, t.timers, ScriptTargets(Ran(script, n)))
      && Descends(q.heap, q.created, t.heap, t.created) && Repeating(q.heap, t.heap, ScriptTargets(script))
  {
    if n == 0 {
      assert Ran(script, 0) == [];
    } else {
      var m, t := AfterScript(q, script, n - 1), AfterScript(q, script, n);
      ScriptKeeps(q, script, n - 1);
      CallsKeep(m, CallsOf(script, n - 1));
      OneMoreScript(script, n - 1);
      RepeatingGoesOn(q.heap, m.heap, t.heap, script, n - 1);
      KeepingExactlyGoesOn(q.heap, q.timers, q.created, m.heap, m.timers, m.created, t.heap, t.timers, t.created,
                           ScriptTargets(Ran(script, n - 1)), Targets(CallsOf(script, n - 1)));
    }
  }

  /** What a whole read keeps: of the timers that were not due exactly the cancelled ones
      are gone, and those that were due went their way. */
  lemma HandlingKeeps(before: Queue, now: int, script: seq<seq<Call>>, batch: seq<Entry>, after: Queue, end: Queue)
    requires Sound(before) && batch == before.timers[..DueCount(before.timers, now)]
    requires after == AfterScript(Queue(before.heap, before.timers[|batch|..], before.created), script, |batch|)
    requires Repeating(after.heap, end.heap, iset{}) && Kept(after.heap, after.timers, end.heap, end.timers, iset{}, iset{})
    requires Descends(after.heap, after.created, end.heap, end.created)
    requires forall e :: e in batch ==> Same(before.heap, after.heap, e.timer)
    requires forall e :: e in batch ==> Restarted(after.heap, e, now, end.heap, end.timers)
    ensures forall e :: e in batch ==> Restarted(before.heap, e, now, end.heap, end.timers)
    ensures Repeating(before.heap, end.heap, ScriptTargets(script))
    ensures Kept(before.heap, before.timers, end.heap, end.timers, ScriptTargets(script), UpTo(now))
    ensures KeptExactly(before.heap, before.timers[|batch|..], end.heap, end.timers, ScriptTargets(Ran(script, |batch|)))
    ensures Descends(before.heap, before.created, end.heap, end.created)
    ensures OneShotsGone(before.heap, before.timers, end.heap, iset{}, UpTo(now))
  {
    var rest := before.timers[|batch|..];
    var targets := ScriptTargets(Ran(script, |batch|));
    var q := Queue(before.heap, rest, before.created);
    assert Sound(q) by { TakeEffect(before.heap, before.timers, |batch|); }
    ScriptKeeps(q, script, |batch|);
    ExactlyOfKept(after.heap, after.timers, end.heap, end.timers);
    KeepingExactlyGoesOn(before.heap, rest, before.created, after.heap, after.timers, after.created,
                         end.heap, end.timers, end.created, targets, iset{});
    NothingMore(targets);
    KeptOfExactly(before.heap, rest, end.heap, end.timers, script, |batch|);
    RestNotDue(before.timers, now);
    WidenKept(before.heap, before.timers, rest, now, end.heap, end.timers, ScriptTargets(script));
    BatchDone(before.heap, after.heap, batch, now, end.heap, end.timers);
    DueAreGone(before.heap, before.timers, now, end.heap, end.timers);
    RepeatingUntilEnd(before.heap, after.heap, end.heap, ScriptTargets(script));
  }

  lemma RepeatingUntilEnd(h0: map<Address, Timer>, h1: map<Address, Timer>, h2: map<Address, Timer>, targets: iset<(Address, nat)>)
    requires Repeating(h0, h1, targets) && Repeating(h1, h2, iset{})
    ensures Repeating(h0, h2, targets)
  {
  }

  class TimerQueue {
    var heap: map<Address, Timer>
    var created: nat                     // s_numCreated
    var timers: seq<Entry>               // m_timers
    var active: set<(Address, nat)>      // m_activeTimers
    var canceling: set<(Address, nat)>   // m_cancelingTimers
    var calling: bool                    // m_callingExpiredTimers
    var alarm: Option<Alarm>             // the armed timerfd
    var readable: bool                   // the timerfd has expired and was not read
    var waiting: set<Address>            // allocated, their addTimerInLoop not yet run
    ghost var inFlight: seq<Entry>       // the expired batch, from getExpired to reset

    ghost predicate Owned()
      reads this
    {
      OneOwner(heap, timers, inFlight, waiting) && Numbered(heap, created)
    }

    /** `m_timers` is ordered, and both sets describe the same timers, as they are now. */
    ghost predicate Agree()
      reads this
    {
      Sorted(timers) && Current(timers, heap) && active == ActiveOf(timers, heap) && canceling == {}
    }

    /** The timerfd will wake the loop early enough for the earliest timer. */
    ghost predicate Covered()
      reads this
    {
      Covers(alarm, readable, timers)
    }

    /** While callbacks run, only timers that `reset` would not arm for need cover. */
    ghost predicate CoveredIfPast()
      reads this
    {
      CoversPast(alarm, readable, timers)
    }

    function State(): Queue
      reads this
    {
      Queue(heap, timers, created)
    }

    /** Between the iterations of the loop. */
    ghost predicate Valid()
      reads this
    {
      Owned() && Agree() && Covered() && inFlight == [] && !calling
    }

    /** A frame for everything that may happen while a batch is in flight. */
    twostate predicate KeepsBatch()
      reads this
    {
      && inFlight == old(inFlight) && calling == old(calling)
      && (forall a :: a in Addresses(inFlight) && a in old(heap) ==> a in heap && heap[a] == old(heap)[a])
    }

    twostate predicate KeepsCover()
      reads this
    {
      (old(Covered()) ==> Covered()) && (old(CoveredIfPast()) ==> CoveredIfPast())
    }

    constructor ()
      ensures Valid() && timers == [] && heap == map[]
    {
      heap, created, timers, active, canceling := map[], 0, [], {}, {};
      calling, alarm, readable, waiting, inFlight := false, None, false, {}, [];
    }

    /** `new Timer`, on any thread; the allocator returns a block that is not in use. */
    method NewTimer(address: Address, when: int, delta: nat, repeat: bool)
      requires Owned() && Agree() && address !in heap
      modifies `heap, `created, `waiting
      ensures Owned() && Agree() && KeepsBatch() && KeepsCover()
      ensures waiting == old(waiting) + {address}
      ensures heap == old(heap)[address := Timer(when, delta, repeat, created)] && created == old(created) + 1
    {
      created := created + 1;
      heap := heap[address := Timer(when, delta, repeat, created)];
      waiting := waiting + {address};
      assert active == ActiveOf(timers, heap);
    }

    /** `delete`: only a live timer may be freed. */
    method Free(address: Address)
      requires address in heap
      modifies `heap
      ensures heap == old(heap) - {address}
    {
      heap := heap - {address};
    }

    method ResetTimerfd(expiration: int, clock: int)
      modifies `alarm, `readable
      ensures alarm == Some(Alarm(clock, Max(expiration, clock + MIN_DELAY))) && !readable
    {
      var (sec, nsec) := HowMuchTimeFromNow(expiration, clock);
      alarm := Some(Alarm(clock, clock + sec * 1_000_000 + nsec / 1000));
      readable := false;
      assert sec * 1_000_000_000 + nsec == Delay(expiration, clock) * 1000;
    }

    /** `insert`: the caller says where the timer comes from. */
    method InsertTimer(address: Address) returns (earliestChanged: bool)
      requires Agree() && address in heap && address !in Addresses(timers)
      modifies `timers, `active
      ensures Agree() && timers == Insert(old(timers), Entry(heap[address].expiration, address))
      ensures Addresses(timers) == Addresses(old(timers)) + {address}
      ensures earliestChanged <==> old(timers) == [] || heap[address].expiration < old(timers)[0].when
    {
      SetsHaveSameSize(timers, heap);
      assert |timers| == |active|;
      var when := heap[address].expiration;
      earliestChanged := timers == [] || when < timers[0].when;
      var entry := Entry(when, address);
      InsertEffect(heap, timers, entry);
      assert entry !in timers;
      timers := Insert(timers, entry);
      assert (address, heap[address].sequence) !in active;
      active := active + {(address, heap[address].sequence)};
      SetsHaveSameSize(timers, heap);
      assert |timers| == |active|;
    }

    /** The timerfd was just set for this time. */
    predicate ArmedFor(when: int, clock: int)
      reads this
    {
      alarm == Some(Alarm(clock, Max(when, clock + MIN_DELAY))) && !readable
    }

    /** `addTimer` on the loop thread.  The id it returns carries no sequence number,
        and `CancelInLoop` ignores every pair with sequence 0. */
    method AddTimer(address: Address, when: int, delta: nat, repeat: bool, clock: int) returns (id: (Address, nat))
      requires Owned() && Agree() && address !in heap
      modifies `heap, `created, `timers, `active, `alarm, `readable, `waiting
      ensures Owned() && Agree() && KeepsBatch() && KeepsCover() && waiting == old(waiting)
      ensures timers == Insert(old(timers), Entry(when, address))
      ensures heap == old(heap)[address := Timer(when, delta, repeat, created)] && created == old(created) + 1
      ensures id == (address, 0)
      ensures if old(timers) == [] || when < old(timers)[0].when then ArmedFor(when, clock) else unchanged(`alarm, `readable)
    {
      NewTimer(address, when, delta, repeat);
      AddTimerInLoop(address, clock);
      id := (address, 0);
    }

    method AddTimerInLoop(address: Address, clock: int)
      requires Owned() && Agree() && address in waiting
      modifies `timers, `active, `alarm, `readable, `waiting
      ensures Owned() && Agree() && KeepsBatch() && KeepsCover()
      ensures timers == Insert(old(timers), Entry(heap[address].expiration, address))
      ensures waiting == old(waiting) - {address}
      ensures if old(timers) == [] || heap[address].expiration < old(timers)[0].when
        then ArmedFor(heap[address].expiration, clock) else unchanged(`alarm, `readable)
    {
      var earliestChanged := InsertTimer(address);
      waiting := waiting - {address};
      if earliestChanged {
        ResetTimerfd(heap[address].expiration, clock);
      }
    }

    /** The branch of `cancelInLoop` for a timer in both sets. */
    method EraseAndFree(address: Address)
      requires Owned() && Agree() && address in heap && address in Addresses(timers)
      modifies `heap, `timers, `active
      ensures Owned() && Agree() && KeepsBatch() && KeepsCover()
      ensures timers == Remove(old(timers), Entry(old(heap)[address].expiration, address))
      ensures heap == old(heap) - {address}
    {
      var entry := Entry(heap[address].expiration, address);
      assert entry in timers;
      RemoveEffect(heap, timers, entry);
      RemoveKeepsCover(alarm, readable, timers, entry);
      var pair := (address, heap[address].sequence);
      timers := Remove(timers, entry);
      Free(address);
      active := active - {pair};
    }

    /** A pair that is not in `m_activeTimers` is ignored: a timer whose callback is
        running, one already freed (even if its block was reused), or sequence 0. */
    method CancelInLoop(address: Address, sequence: nat)
      requires Owned() && Agree()
      modifies `heap, `timers, `active
      ensures Owned() && Agree() && KeepsBatch() && KeepsCover()
      ensures if address in old(heap) && old(heap)[address].sequence == sequence && address in Addresses(old(timers)) then
          timers == Remove(old(timers), Entry(old(heap)[address].expiration, address)) && heap == old(heap) - {address}
        else unchanged(this)
      ensures sequence == 0 ==> unchanged(this)
    {
      SetsHaveSameSize(timers, heap);
      assert |timers| == |active|;
      if (address, sequence) in active {
        EraseAndFree(address);
      } else if calling {
        assert (address, sequence) !in canceling;
      }
    }

    /** The batch is exactly the timers due at `now`, in order. */
    method GetExpired(now: int) returns (expired: seq<Entry>)
      requires Owned() && Agree() && inFlight == []
      modifies `timers, `active, `inFlight
      ensures Owned() && Agree() && inFlight == expired
      ensures expired == old(timers)[..DueCount(old(timers), now)]
      ensures timers == old(timers)[DueCount(old(timers), now)..]
      ensures forall e :: e in timers ==> e.when > now
      ensures Current(expired, heap)
    {
      SetsHaveSameSize(timers, heap);
      assert |timers| == |active|;
      var n := DueCount(timers, now);
      TakeEffect(heap, timers, n);
      expired := timers[..n];
      EraseActive(expired, timers);
      timers := timers[n..];
      inFlight := expired;
      SetsHaveSameSize(timers, heap);
      assert |timers| == |active|;
    }

    /** Takes the batch out of `m_activeTimers`. */
    method EraseActive(expired: seq<Entry>, ghost whole: seq<Entry>)
      requires Sorted(whole) && Current(whole, heap) && expired <= whole && active == ActiveOf(whole, heap)
      modifies `active
      ensures active == ActiveOf(whole[|expired|..], heap)
    {
      assert whole[0..] == whole;
      var i := 0;
      while i < |expired|
        invariant i <= |expired|
        invariant active == ActiveOf(whole[i..], heap)
      {
        var entry := expired[i];
        assert entry == whole[i];
        var pair := (entry.timer, heap[entry.timer].sequence);
        DropFirst(heap, whole, i);
        assert pair in active;
        active := active - {pair};
        i := i + 1;
      }
    }

    /** One call made by a running callback, or by anything else on the loop thread. */
    method Perform(call: Call)
      requires Owned() && Agree()
      modifies `heap, `created, `timers, `active, `alarm, `readable, `waiting
      ensures Owned() && Agree() && KeepsBatch() && KeepsCover()
      ensures waiting == old(waiting) && State() == AfterCall(old(State()), call)
      ensures if call.Add? && call.address !in old(heap) && (old(timers) == [] || call.when < old(timers)[0].when)
        then ArmedFor(call.when, call.clock) else unchanged(`alarm, `readable)
    {
      match call {
        case Add(address, when, delta, repeat, clock) =>
          if address !in heap {  // the allocator never hands out a block in use
            var _ := AddTimer(address, when, delta, repeat, clock);
          }
        case Cancel(address, sequence) =>
          CancelInLoop(address, sequence);
      }
    }

    /** The body of one callback. */
    method RunCallback(calls: seq<Call>)
      requires Owned() && Agree()
      modifies `heap, `created, `timers, `active, `alarm, `readable, `waiting
      ensures Owned() && Agree() && KeepsBatch() && KeepsCover()
      ensures waiting == old(waiting) && State() == AfterCalls(old(State()), calls) && (readable ==> old(readable))
      decreases |calls|
    {
      if calls != [] {
        var n := |calls| - 1;
        RunCallback(calls[..n]);
        Perform(calls[n]);
      }
    }

    method RestartFirst(a: Address, now: int)
      requires Owned() && Agree() && CoveredIfPast() && now > 0
      requires inFlight != [] && inFlight[0].timer == a && a in heap && heap[a].repeat
      modifies `heap, `timers, `active, `inFlight
      ensures Owned() && Agree() && CoveredIfPast() && inFlight == old(inFlight)[1..]
      ensures var t := old(heap)[a].(expiration := now + old(heap)[a].delta);
        heap == old(heap)[a := t] && timers == Insert(old(timers), Entry(t.expiration, a))
    {
      var t := heap[a].(expiration := now + heap[a].delta);
      ghost var h, ts, rest := heap[a := t], Insert(timers, Entry(t.expiration, a)), inFlight[1..];
      assert OneOwner(h, ts, rest, waiting) && Current(timers, h) && ActiveOf(timers, h) == active && a !in Addresses(timers) by {
        RestartEffect(heap, timers, inFlight, waiting, t);
      }
      assert Numbered(h, created) by { RenumberEffect(heap, created, a, t); }
      assert CoversPast(alarm, readable, ts) by { InsertKeepsCoverPast(alarm, readable, timers, Entry(t.expiration, a)); }
      ghost var al, rd := alarm, readable;
      inFlight := rest;
      Requeue(a, t);
      assert CoveredIfPast() by { assert alarm == al && readable == rd && timers == ts; }
    }

    method Requeue(a: Address, t: Timer)
      requires Sorted(timers) && Current(timers, heap[a := t]) && ActiveOf(timers, heap[a := t]) == active
      requires canceling == {} && a !in Addresses(timers)
      modifies `heap, `timers, `active
      ensures Agree() && heap == old(heap)[a := t] && timers == Insert(old(timers), Entry(t.expiration, a))
    {
      heap := heap[a := t];
      var _ := InsertTimer(a);
    }

    method FreeFirst(a: Address)
      requires Owned() && Agree() && CoveredIfPast() && inFlight != [] && inFlight[0].timer == a
      modifies `heap, `inFlight
      ensures Owned() && Agree() && CoveredIfPast() && inFlight == old(inFlight)[1..]
      ensures heap == old(heap) - {a}
    {
      FreeEffect(heap, timers, inFlight, waiting);
      Free(a);
      inFlight := inFlight[1..];
    }

    /** `reset` for the next timer of the batch. */
    method ResetOne(entry: Entry, now: int)
      requires Owned() && Agree() && CoveredIfPast() && now > 0
      requires inFlight != [] && inFlight[0] == entry
      modifies `heap, `timers, `active, `inFlight
      ensures Owned() && Agree() && CoveredIfPast() && inFlight == old(inFlight)[1..]
      ensures Restarted(old(heap), entry, now, heap, timers)
      ensures heap - {entry.timer} == old(heap) - {entry.timer}
      ensures forall e :: e in old(timers) ==> e in timers
      ensures forall e :: e in timers ==> e in old(timers) || (old(heap)[entry.timer].repeat && e == Again(old(heap), entry, now))
    {
      var a := entry.timer;
      assert a in Addresses(inFlight);
      if heap[a].repeat && (a, heap[a].sequence) !in canceling {
        RestartFirst(a, now);
      } else {
        FreeFirst(a);
      }
    }

    /** `reset`: repeating timers go back with a new expiration, the others are freed,
        and the timerfd is set for the earliest valid expiration. */
    method Reset(expired: seq<Entry>, now: int, clock: int)
      requires Owned() && Agree() && CoveredIfPast() && inFlight == expired && now > 0
      modifies `heap, `timers, `active, `alarm, `readable, `inFlight
      ensures Owned() && Agree() && Covered() && inFlight == []
      ensures forall e :: e in expired ==> Restarted(old(heap), e, now, heap, timers)
      ensures Repeating(old(heap), heap, iset{})
      ensures Kept(old(heap), old(timers), heap, timers, iset{}, iset{}) && Descends(old(heap), created, heap, created)
      ensures OnlyRestarted(old(heap), old(timers), expired, now, timers)
      ensures if timers != [] && timers[0].when > 0 then ArmedFor(timers[0].when, clock) else unchanged(`alarm, `readable)
    {
      ResetBatch(expired, now);
      if timers != [] {
        var nextExpire := heap[timers[0].timer].expiration;
        if nextExpire > 0 {
          ResetTimerfd(nextExpire, clock);
        }
      }
    }

    method ResetBatch(expired: seq<Entry>, now: int)
      requires Owned() && Agree() && CoveredIfPast() && inFlight == expired && now > 0
      modifies `heap, `timers, `active, `inFlight
      ensures Owned() && Agree() && CoveredIfPast() && inFlight == []
      ensures forall e :: e in expired ==> Restarted(old(heap), e, now, heap, timers)
      ensures Repeating(old(heap), heap, iset{})
      ensures Kept(old(heap), old(timers), heap, timers, iset{}, iset{}) && Descends(old(heap), created, heap, created)
      ensures OnlyRestarted(old(heap), old(timers), expired, now, timers)
    {
      ghost var before := heap;
      var i := 0;
      while i < |expired|
        invariant i <= |expired| && Owned() && Agree() && CoveredIfPast() && inFlight == expired[i..]
        invariant BatchState(before, expired, i, now, heap, timers)
        invariant Repeating(before, heap, iset{})
        invariant Kept(before, old(timers), heap, timers, iset{}, iset{}) && Descends(before, created, heap, created)
        invariant OnlyRestarted(before, old(timers), expired, now, timers)
      {
        assert expired[i..][0] == expired[i] && expired[i..][1..] == expired[i + 1..];
        ghost var h1, t1 := heap, timers;
        assert expired[i].timer in Addresses(inFlight);
        ResetOne(expired[i], now);
        BatchStep(before, expired, i, now, h1, t1, heap, timers);
        RestartKeepsRepeating(h1, expired[i], now, heap, timers);
        RestartKeeps(h1, t1, heap, timers, expired[i].timer);
        RestartDescends(h1, expired[i], now, created, heap, timers);
        OneMoreRestarted(before, old(timers), expired, now, i, h1, t1, timers);
        i := i + 1;
      }
    }

    /** The timerfd expires: a one-shot timer is disarmed and becomes readable. */
    method TimerFires()
      requires Owned() && Agree()
      modifies `alarm, `readable
      ensures Owned() && Agree() && KeepsBatch() && KeepsCover()
      ensures if old(alarm).Some? then readable && alarm.None? else unchanged(this)
    {
      if alarm.Some? {
        alarm, readable := None, true;
      }
    }

    /** The callbacks of the batch, one after the other. */
    method RunBatch(expired: seq<Entry>, script: seq<seq<Call>>)
      requires Owned() && Agree() && CoveredIfPast() && inFlight == expired
      modifies `heap, `created, `timers, `active, `alarm, `readable, `waiting
      ensures Owned() && Agree() && CoveredIfPast() && waiting == old(waiting)
      ensures forall e :: e in expired ==> Same(old(heap), heap, e.timer)
      ensures State() == AfterScript(old(State()), script, |expired|) && (readable ==> old(readable))
    {
      forall e | e in expired ensures e.timer in heap {
        assert e.timer in Addresses(inFlight);
      }
      var i := 0;
      while i < |expired|
        invariant Owned() && Agree() && CoveredIfPast() && waiting == old(waiting)
        invariant forall e :: e in expired ==> Same(old(heap), heap, e.timer)
        invariant i <= |expired| && State() == AfterScript(old(State()), script, i) && (readable ==> old(readable))
      {
        ScriptOneByOne(old(State()), script, i);
        RunTimer(expired[i], CallsOf(script, i));
        i := i + 1;
      }
    }

    /** `run()` is called on a live timer. */
    method RunTimer(entry: Entry, calls: seq<Call>)
      requires Owned() && Agree() && CoveredIfPast() && entry in inFlight
      modifies `heap, `created, `timers, `active, `alarm, `readable, `waiting
      ensures Owned() && Agree() && CoveredIfPast()
      ensures forall e :: e in inFlight ==> Same(old(heap), heap, e.timer)
      ensures waiting == old(waiting) && State() == AfterCalls(old(State()), calls) && (readable ==> old(readable))
    {
      assert entry.timer in Addresses(inFlight) && entry.timer in heap;
      RunCallback(calls);
      forall e | e in inFlight ensures Same(old(heap), heap, e.timer) {
        assert e.timer in Addresses(inFlight);
      }
    }

    /** One wakeup of the timerfd channel, spurious or not.  `script[i]` is what the
        callback of the i-th expired timer does. */
    method HandleRead(now: int, script: seq<seq<Call>>, clock: int) returns (expired: seq<Entry>)
      requires Valid() && now > 0
      modifies `heap, `created, `timers, `active, `canceling, `calling, `alarm, `readable, `waiting, `inFlight
      ensures Valid() && waiting == old(waiting)
      ensures expired == old(timers)[..DueCount(old(timers), now)]
      ensures forall e :: e in expired ==> Restarted(old(heap), e, now, heap, timers)
      ensures Repeating(old(heap), heap, ScriptTargets(script))
      ensures Kept(old(heap), old(timers), heap, timers, ScriptTargets(script), UpTo(now))
      ensures KeptExactly(old(heap), old(timers)[|expired|..], heap, timers, ScriptTargets(Ran(script, |expired|)))
      ensures Descends(old(heap), old(created), heap, created)
      ensures OneShotsGone(old(heap), old(timers), heap, iset{}, UpTo(now))
      ensures var q := AfterScript(Queue(old(heap), old(timers)[|expired|..], old(created)), script, |expired|);
        && created == q.created && Kept(q.heap, q.timers, heap, timers, iset{}, iset{})
        && OnlyRestarted(q.heap, q.timers, expired, now, timers)
      ensures !readable && (timers != [] && timers[0].when > 0 ==> ArmedFor(timers[0].when, clock))
    {
      expired := TakeAndRun(now, script);
      ghost var after := State();
      Reset(expired, now, clock);
      HandlingKeeps(old(State()), now, script, expired, after, State());
    }

    /** The expired timers are taken and their callbacks run; the batch is still in flight. */
    method TakeAndRun(now: int, script: seq<seq<Call>>) returns (expired: seq<Entry>)
      requires Valid() && now > 0
      modifies `heap, `created, `timers, `active, `canceling, `calling, `alarm, `readable, `waiting, `inFlight
      ensures Owned() && Agree() && CoveredIfPast() && inFlight == expired && !calling && waiting == old(waiting)
      ensures expired == old(timers)[..DueCount(old(timers), now)]
      ensures forall e :: e in expired ==> Same(old(heap), heap, e.timer)
      ensures State() == AfterScript(Queue(old(heap), old(timers)[|expired|..], old(created)), script, |expired|)
      ensures !readable
    {
      readable := false;
      expired := GetExpired(now);
      calling := true;
      canceling := {};
      assert State() == Queue(old(heap), old(timers)[|expired|..], old(created));
      RunBatch(expired, script);
      calling := false;
    }

    /** The destructor frees every queued timer; only those whose insertion is still
        queued in the loop stay allocated. */
    method Destroy()
      requires Valid()
      modifies `heap
      ensures heap.Keys == old(waiting)
    {
      ghost var whole := heap;
      var i := 0;
      while i < |timers|
        invariant i <= |timers|
        invariant heap.Keys == Addresses(timers[i..]) + waiting
      {
        SplitFirst(whole, timers, i);
        Free(timers[i].timer);
        i := i + 1;
      }
    }
  }

  /** What can happen to the queue between two iterations of the loop. */
  datatype Event =
    | Perform(call: Call)                                                 // on the loop thread
    | Allocate(address: Address, when: int, delta: nat, repeat: bool)     // addTimer on another thread
    | RunQueuedAdd(address: Address, clock: int)                          // its functor, later
    | Fire
    | Read(now: int, script: seq<seq<Call>>, clock: int)

  ghost function TargetsOf(e: Event): iset<(Address, nat)> {
    match e
    case Perform(call) => Targets([call])
    case Read(_, script, _) => ScriptTargets(script)
    case _ => iset{}
  }

  ghost predicate RunCancels(events: seq<Event>, pair: (Address, nat)) {
    exists i :: 0 <= i < |events| && pair in TargetsOf(events[i])
  }

  ghost function AllTargets(events: seq<Event>): iset<(Address, nat)> {
    iset pair | RunCancels(events, pair)
  }

  /** The expiration times that the event finds due. */
  ghost function DueAt(e: Event): iset<int> {
    if e.Read? then UpTo(e.now) else iset{}
  }

  /** One of the first `n` events, a read of the timerfd, finds this time due. */
  ghost predicate FoundDue(events: seq<Event>, n: nat, when: int) {
    exists i :: 0 <= i < n && i < |events| && when in DueAt(events[i])
  }

  ghost function DueIn(events: seq<Event>, n: nat): iset<int> {
    iset when | FoundDue(events, n, when)
  }

  /** One more event of a run: a one-shot timer stays until its read, and then is gone. */
  lemma OneMoreEvent(h0: map<Address, Timer>, t0: seq<Entry>, h1: map<Address, Timer>, t1: seq<Entry>, c1: nat,
                     h2: map<Address, Timer>, t2: seq<Entry>, c2: nat,
                     targets: iset<(Address, nat)>, due: iset<int>, next: iset<int>)
    requires Numbered(h0, c1) && Descends(h1, c1, h2, c2)
    requires Kept(h0, t0, h1, t1, targets, due) && Kept(h1, t1, h2, t2, targets, next)
    requires OneShotsGone(h0, t0, h1, targets, due) && OneShotsGone(h1, t1, h2, targets, next)
    ensures Kept(h0, t0, h2, t2, targets, due + next)
    ensures OneShotsGone(h0, t0, h2, targets, due + next)
  {
    forall e | e in t0 && e.timer in h0 && !h0[e.timer].repeat && e.when in due + next
      ensures (e.timer, h0[e.timer].sequence) in targets || !Alive(h2, e.timer, h0[e.timer].sequence)
    {
      if e.when !in due && (e.timer, h0[e.timer].sequence) !in targets {
        assert e in t1 && Same(h0, h1, e.timer);
      }
    }
  }

  lemma OneMoreDue(events: seq<Event>, i: nat)
    requires i < |events|
    ensures DueIn(events, i + 1) == DueIn(events, i) + DueAt(events[i])
    ensures TargetsOf(events[i]) <= AllTargets(events)
  {
    forall pair | pair in TargetsOf(events[i]) ensures RunCancels(events, pair) {}
  }

  lemma KeptUpToTargets(h1: map<Address, Timer>, t1: seq<Entry>, h2: map<Address, Timer>, t2: seq<Entry>,
                        few: iset<(Address, nat)>, many: iset<(Address, nat)>, due: iset<int>)
    requires few <= many && Kept(h1, t1, h2, t2, few, due) && OneShotsGone(h1, t1, h2, few, due)
    ensures Kept(h1, t1, h2, t2, many, due) && OneShotsGone(h1, t1, h2, many, due)
  {
  }

  /** Whether an event, with this batch of expired timers, ends a queued timer: a cancel
      that names it does, made by a callback only if the timer is not in the batch itself;
      and being in the batch does, for a one-shot timer. */
  predicate Ends(e: Event, batch: seq<Entry>, a: Address, sequence: nat, repeat: bool) {
    match e
    case Perform(call) => Cancels([call], (a, sequence))
    case Read(_, script, _) => if a in Addresses(batch) then !repeat else ScriptCancels(Ran(script, |batch|), (a, sequence))
    case _ => false
  }

  /** What becomes of a queued timer: gone, or queued still (or again). */
  predicate Fate(ends: bool, h1: map<Address, Timer>, x: Entry, h2: map<Address, Timer>, t2: seq<Entry>)
    requires x.timer in h1
  {
    var t := h1[x.timer];
    if ends then !Alive(h2, x.timer, t.sequence)
    else Alive(h2, x.timer, t.sequence) && h2[x.timer].repeat == t.repeat && x.timer in Addresses(t2)
  }

  ghost predicate Fates(e: Event, batch: seq<Entry>, h1: map<Address, Timer>, t1: seq<Entry>, h2: map<Address, Timer>, t2: seq<Entry>) {
    forall x :: x in t1 && x.timer in h1 ==>
      Fate(Ends(e, batch, x.timer, h1[x.timer].sequence, h1[x.timer].repeat), h1, x, h2, t2)
  }

  /** A timer of the batch: queued again if it repeats, else gone. */
  lemma BatchFate(h1: map<Address, Timer>, x: Entry, now: int, h2: map<Address, Timer>, t2: seq<Entry>)
    requires Restarted(h1, x, now, h2, t2)
    ensures Fate(!h1[x.timer].repeat, h1, x, h2, t2)
  {
    var t := h1[x.timer];
    assert t.repeat ==> Entry(now + t.delta, x.timer) in t2;
  }

  /** A timer that is not in the batch: gone if a callback cancelled it, else as it was. */
  lemma LaterFate(h1: map<Address, Timer>, rest: seq<Entry>, h2: map<Address, Timer>, t2: seq<Entry>,
                  script: seq<seq<Call>>, n: nat, x: Entry)
    requires KeptExactly(h1, rest, h2, t2, ScriptTargets(Ran(script, n))) && x in rest && x.timer in h1
    ensures Fate(ScriptCancels(Ran(script, n), (x.timer, h1[x.timer].sequence)), h1, x, h2, t2)
  {
  }

  lemma ReadFate(e: Event, batch: seq<Entry>, rest: seq<Entry>, h1: map<Address, Timer>, h2: map<Address, Timer>,
                 t2: seq<Entry>, x: Entry)
    requires e.Read? && Addresses(batch) !! Addresses(rest) && (x in batch || x in rest) && x.timer in h1
    requires x in batch ==> Restarted(h1, x, e.now, h2, t2)
    requires KeptExactly(h1, rest, h2, t2, ScriptTargets(Ran(e.script, |batch|)))
    ensures Fate(Ends(e, batch, x.timer, h1[x.timer].sequence, h1[x.timer].repeat), h1, x, h2, t2)
  {
    if x in batch {
      assert x.timer in Addresses(batch);
      BatchFate(h1, x, e.now, h2, t2);
    } else {
      assert x.timer in Addresses(rest);
      LaterFate(h1, rest, h2, t2, e.script, |batch|, x);
    }
  }

  lemma ReadFates(e: Event, batch: seq<Entry>, h1: map<Address, Timer>, t1: seq<Entry>, h2: map<Address, Timer>, t2: seq<Entry>)
    requires e.Read? && Sorted(t1) && Current(t1, h1) && batch == t1[..DueCount(t1, e.now)]
    requires forall x :: x in batch ==> Restarted(h1, x, e.now, h2, t2)
    requires KeptExactly(h1, t1[|batch|..], h2, t2, ScriptTargets(Ran(e.script, |batch|)))
    ensures Fates(e, batch, h1, t1, h2, t2)
  {
    var rest := t1[|batch|..];
    assert t1 == batch + rest;
    assert Addresses(batch) !! Addresses(rest) by { TakeEffect(h1, t1, |batch|); }
    forall x | x in t1 && x.timer in h1
      ensures Fate(Ends(e, batch, x.timer, h1[x.timer].sequence, h1[x.timer].repeat), h1, x, h2, t2)
    {
      ReadFate(e, batch, rest, h1, h2, t2, x);
    }
  }

  lemma PerformFates(call: Call, h1: map<Address, Timer>, t1: seq<Entry>, h2: map<Address, Timer>, t2: seq<Entry>)
    requires KeptExactly(h1, t1, h2, t2, Targets([call]))
    ensures Fates(Perform(call), [], h1, t1, h2, t2)
    ensures Kept(h1, t1, h2, t2, Targets([call]), iset{})
  {
  }

  lemma UneventfulFates(e: Event, h1: map<Address, Timer>, t1: seq<Entry>, h2: map<Address, Timer>, t2: seq<Entry>)
    requires !e.Perform? && !e.Read? && Kept(h1, t1, h2, t2, iset{}, iset{})
    ensures Fates(e, [], h1, t1, h2, t2)
  {
  }

  /** An armed timerfd expires for the earliest timer, and not before it, or 100
      microseconds after it was armed when that was later. */
  predicate Punctual(alarm: Option<Alarm>, ts: seq<Entry>) {
    alarm.Some? && ts != [] && ts[0].when > 0 ==> alarm.value.deadline == Max(ts[0].when, alarm.value.at + 100)
  }

  /** The loop thread itself cancels; the timerfd may then be armed for a timer that is gone. */
  predicate IsCancel(e: Event) {
    e.Perform? && e.call.Cancel?
  }

  /** After each such cancellation among the first `n` events comes a read of the timerfd. */
  predicate ReadSinceCancel(events: seq<Event>, n: nat) {
    forall i :: 0 <= i < n && i < |events| && IsCancel(events[i]) ==> exists j :: i < j < n && j < |events| && events[j].Read?
  }

  lemma ReadSinceCancelStep(events: seq<Event>, n: nat)
    requires n < |events| && ReadSinceCancel(events, n + 1) && !events[n].Read?
    ensures !IsCancel(events[n]) && ReadSinceCancel(events, n)
  {
    forall i | 0 <= i < n && IsCancel(events[i]) ensures exists j :: i < j < n && events[j].Read? {
      var j :| i < j < n + 1 && events[j].Read?;
      assert j != n;
    }
  }

  /** What the steps outside a read make of the queue, of the timers on their way in, and
      of the memory. */
  predicate Served(e: Event, q1: Queue, w1: set<Address>, q2: Queue, w2: set<Address>) {
    match e
    case Perform(call) => q2 == AfterCall(q1, call) && w2 == w1
    case Allocate(address, when, delta, repeat) =>
      if address in q1.heap then q2 == q1 && w2 == w1
      else q2 == Queue(q1.heap[address := Timer(when, delta, repeat, q1.created + 1)], q1.timers, q1.created + 1) && w2 == w1 + {address}
    case RunQueuedAdd(address, _) =>
      if address in w1 && address in q1.heap then
        q2 == q1.(timers := Insert(q1.timers, Entry(q1.heap[address].expiration, address))) && w2 == w1 - {address}
      else q2 == q1 && w2 == w1
    case Fire => q2 == q1 && w2 == w1
    case Read(_, _, _) => w2 == w1
  }

  method Dispatch(q: TimerQueue, e: Event) returns (batch: seq<Entry>)
    requires q.Valid() && (e.Read? ==> e.now > 0)
    modifies q
    ensures q.Valid()
    ensures batch == if e.Read? then old(q.timers)[..DueCount(old(q.timers), e.now)] else []
    ensures Fates(e, batch, old(q.heap), old(q.timers), q.heap, q.timers)
    ensures Repeating(old(q.heap), q.heap, TargetsOf(e))
    ensures Kept(old(q.heap), old(q.timers), q.heap, q.timers, TargetsOf(e), DueAt(e))
    ensures Descends(old(q.heap), old(q.created), q.heap, q.created)
    ensures OneShotsGone(old(q.heap), old(q.timers), q.heap, TargetsOf(e), DueAt(e))
    ensures Served(e, old(q.State()), old(q.waiting), q.State(), q.waiting)
    ensures e.Read? || (!IsCancel(e) && Punctual(old(q.alarm), old(q.timers))) ==> Punctual(q.alarm, q.timers)
  {
    batch := [];
    match e {
      case Perform(call) => DispatchCall(q, call);
      case Read(_, _, _) => batch := DispatchRead(q, e);
      case _ =>
        ghost var h1, t1 := q.heap, q.timers;
        DispatchQuiet(q, e);
        UneventfulFates(e, h1, t1, q.heap, q.timers);
    }
  }

  method DispatchCall(q: TimerQueue, call: Call)
    requires q.Valid()
    modifies q
    ensures q.Valid() && q.State() == AfterCall(old(q.State()), call) && q.waiting == old(q.waiting)
    ensures Fates(Perform(call), [], old(q.heap), old(q.timers), q.heap, q.timers)
    ensures Repeating(old(q.heap), q.heap, Targets([call]))
    ensures Kept(old(q.heap), old(q.timers), q.heap, q.timers, Targets([call]), iset{})
    ensures Descends(old(q.heap), old(q.created), q.heap, q.created)
    ensures call.Add? && Punctual(old(q.alarm), old(q.timers)) ==> Punctual(q.alarm, q.timers)
  {
    ghost var h1, t1 := q.heap, q.timers;
    CallKeeps(q.State(), call);
    q.Perform(call);
    PerformFates(call, h1, t1, q.heap, q.timers);
  }

  method DispatchRead(q: TimerQueue, e: Event) returns (batch: seq<Entry>)
    requires q.Valid() && e.Read? && e.now > 0
    modifies q
    ensures q.Valid() && q.waiting == old(q.waiting)
    ensures batch == old(q.timers)[..DueCount(old(q.timers), e.now)]
    ensures Fates(e, batch, old(q.heap), old(q.timers), q.heap, q.timers)
    ensures Repeating(old(q.heap), q.heap, ScriptTargets(e.script))
    ensures Kept(old(q.heap), old(q.timers), q.heap, q.timers, ScriptTargets(e.script), UpTo(e.now))
    ensures Descends(old(q.heap), old(q.created), q.heap, q.created)
    ensures OneShotsGone(old(q.heap), old(q.timers), q.heap, iset{}, UpTo(e.now))
    ensures Punctual(q.alarm, q.timers)
  {
    ghost var h1, t1 := q.heap, q.timers;
    batch := q.HandleRead(e.now, e.script, e.clock);
    ReadFates(e, batch, h1, t1, q.heap, q.timers);
  }

  method DispatchQuiet(q: TimerQueue, e: Event)
    requires q.Valid() && !e.Perform? && !e.Read?
    modifies q
    ensures q.Valid()
    ensures Repeating(old(q.heap), q.heap, iset{})
    ensures Kept(old(q.heap), old(q.timers), q.heap, q.timers, iset{}, iset{})
    ensures Descends(old(q.heap), old(q.created), q.heap, q.created)
    ensures Served(e, old(q.State()), old(q.waiting), q.State(), q.waiting)
    ensures Punctual(old(q.alarm), old(q.timers)) ==> Punctual(q.alarm, q.timers)
  {
    match e {
      case Allocate(address, when, delta, repeat) =>
        if address !in q.heap { q.NewTimer(address, when, delta, repeat); }
      case RunQueuedAdd(address, clock) =>
        if address in q.waiting { q.AddTimerInLoop(address, clock); }
      case Fire => q.TimerFires();
    }
  }

  /** Some event of the first `n` ended this timer; `fired` holds the batch of each. */
  predicate Ended(events: seq<Event>, fired: seq<seq<Entry>>, n: nat, a: Address, sequence: nat, repeat: bool) {
    exists i :: 0 <= i < n && i < |events| && i < |fired| && Ends(events[i], fired[i], a, sequence, repeat)
  }

  /** How the timers queued at first have fared. */
  ghost predicate Fared(events: seq<Event>, fired: seq<seq<Entry>>, n: nat,
                        h0: map<Address, Timer>, t0: seq<Entry>, h: map<Address, Timer>, ts: seq<Entry>) {
    forall x :: x in t0 && x.timer in h0 ==>
      var t := h0[x.timer];
      && (Alive(h, x.timer, t.sequence) <==> !Ended(events, fired, n, x.timer, t.sequence, t.repeat))
      && (Alive(h, x.timer, t.sequence) ==> h[x.timer].repeat == t.repeat && x.timer in Addresses(ts))
  }

  lemma OneMoreFate(events: seq<Event>, fired: seq<seq<Entry>>, batch: seq<Entry>,
                    h0: map<Address, Timer>, t0: seq<Entry>, h1: map<Address, Timer>, t1: seq<Entry>, c1: nat,
                    h2: map<Address, Timer>, t2: seq<Entry>, c2: nat)
    requires |fired| < |events| && Numbered(h0, c1) && Descends(h1, c1, h2, c2)
    requires Fared(events, fired, |fired|, h0, t0, h1, t1)
    requires Fates(events[|fired|], batch, h1, t1, h2, t2)
    ensures Fared(events, fired + [batch], |fired| + 1, h0, t0, h2, t2)
  {
    var n := |fired|;
    forall x | x in t0 && x.timer in h0
      ensures var t := h0[x.timer];
        && (Alive(h2, x.timer, t.sequence) <==> !Ended(events, fired + [batch], n + 1, x.timer, t.sequence, t.repeat))
        && (Alive(h2, x.timer, t.sequence) ==> h2[x.timer].repeat == t.repeat && x.timer in Addresses(t2))
    {
      var t := h0[x.timer];
      EndedOneMore(events, fired, batch, x.timer, t.sequence, t.repeat);
      if Alive(h1, x.timer, t.sequence) {
        var y :| y in t1 && y.timer == x.timer;
      }
    }
  }

  lemma EndedOneMore(events: seq<Event>, fired: seq<seq<Entry>>, batch: seq<Entry>, a: Address, sequence: nat, repeat: bool)
    requires |fired| < |events|
    ensures Ended(events, fired + [batch], |fired| + 1, a, sequence, repeat) <==>
      Ended(events, fired, |fired|, a, sequence, repeat) || Ends(events[|fired|], batch, a, sequence, repeat)
  {
    var more := fired + [batch];
    assert more[|fired|] == batch && forall i :: 0 <= i < |fired| ==> more[i] == fired[i];
    if Ends(events[|fired|], batch, a, sequence, repeat) {
      assert Ends(events[|fired|], more[|fired|], a, sequence, repeat);
    }
    if i :| 0 <= i < |fired| && Ends(events[i], fired[i], a, sequence, repeat) {
      assert Ends(events[i], more[i], a, sequence, repeat);
    }
  }

  /** Everything that holds of the timers that were there at first, after some events. */
  ghost predicate SoFar(events: seq<Event>, fired: seq<seq<Entry>>, before: Queue, q: Queue) {
    && |fired| <= |events| && before.created <= q.created
    && Fared(events, fired, |fired|, before.heap, before.timers, q.heap, q.timers)
    && Repeating(before.heap, q.heap, AllTargets(events))
    && Kept(before.heap, before.timers, q.heap, q.timers, AllTargets(events), DueIn(events, |fired|))
    && OneShotsGone(before.heap, before.timers, q.heap, AllTargets(events), DueIn(events, |fired|))
  }

  lemma OneMoreStep(events: seq<Event>, fired: seq<seq<Entry>>, batch: seq<Entry>, before: Queue, q: Queue, next: Queue)
    requires SoFar(events, fired, before, q) && |fired| < |events| && Numbered(before.heap, q.created)
    requires var e := events[|fired|];
      && Fates(e, batch, q.heap, q.timers, next.heap, next.timers)
      && Repeating(q.heap, next.heap, TargetsOf(e))
      && Kept(q.heap, q.timers, next.heap, next.timers, TargetsOf(e), DueAt(e))
      && Descends(q.heap, q.created, next.heap, next.created)
      && OneShotsGone(q.heap, q.timers, next.heap, TargetsOf(e), DueAt(e))
    ensures SoFar(events, fired + [batch], before, next)
  {
    var i, targets := |fired|, AllTargets(events);
    OneMoreDue(events, i);
    KeptUpToTargets(q.heap, q.timers, next.heap, next.timers, TargetsOf(events[i]), targets, DueAt(events[i]));
    OneMoreEvent(before.heap, before.timers, q.heap, q.timers, q.created, next.heap, next.timers, next.created,
                 targets, DueIn(events, i), DueAt(events[i]));
    OneMoreFate(events, fired, batch, before.heap, before.timers, q.heap, q.timers, q.created, next.heap, next.timers, next.created);
    StillRepeating(before.heap, q.heap, next.heap, TargetsOf(events[i]), targets);
  }

  lemma StillRepeating(h0: map<Address, Timer>, h1: map<Address, Timer>, h2: map<Address, Timer>,
                       few: iset<(Address, nat)>, many: iset<(Address, nat)>)
    requires few <= many && Repeating(h0, h1, many) && Repeating(h1, h2, few)
    ensures Repeating(h0, h2, many)
  {
  }

  lemma OneMorePunctual(events: seq<Event>, n: nat, start: bool, before: bool, after: bool)
    requires n < |events| && (start && ReadSinceCancel(events, n) ==> before)
    requires events[n].Read? || (!IsCancel(events[n]) && before) ==> after
    ensures start && ReadSinceCancel(events, n + 1) ==> after
  {
    if ReadSinceCancel(events, n + 1) && !events[n].Read? { ReadSinceCancelStep(events, n); }
  }

  /** Over every run, whatever callbacks do: one owner for each live timer, agreeing
      sets, an armed timerfd, and no lookup or free outside the heap.  A queued timer is
      gone at the end exactly when some event ended it: a cancel with its true sequence
      (made by a callback only while the timer is not in the batch itself), or, for a
      one-shot timer, a read that ran it.  So ids as `addTimer` returns them, with sequence
      0, never stop a repeating timer.  Until then it stays as it is, but for the reads
      that find a repeating timer due.  The timerfd never wakes the loop before the
      earliest timer, unless the loop thread cancelled since the last read. */
  method Run(q: TimerQueue, events: seq<Event>) returns (fired: seq<seq<Entry>>)
    requires q.Valid()
    requires forall e :: e in events && e.Read? ==> e.now > 0
    modifies q
    ensures q.Valid() && |fired| == |events|
    ensures Fared(events, fired, |events|, old(q.heap), old(q.timers), q.heap, q.timers)
    ensures Punctual(old(q.alarm), old(q.timers)) && ReadSinceCancel(events, |events|) ==> Punctual(q.alarm, q.timers)
    ensures Repeating(old(q.heap), q.heap, AllTargets(events))
    ensures (forall p :: p in AllTargets(events) ==> p.1 == 0) ==>
      forall a :: a in old(q.heap) && old(q.heap)[a].repeat ==> a in Addresses(q.timers) || a in q.waiting
    ensures Kept(old(q.heap), old(q.timers), q.heap, q.timers, AllTargets(events), DueIn(events, |events|))
    ensures forall e :: e in old(q.timers) && !old(q.heap)[e.timer].repeat ==>
      (e.timer, old(q.heap)[e.timer].sequence) in AllTargets(events) ||
      (Alive(q.heap, e.timer, old(q.heap)[e.timer].sequence) <==> !FoundDue(events, |events|, e.when))
  {
    ghost var before, start := q.State(), Punctual(q.alarm, q.timers);
    fired := [];
    while |fired| < |events|
      invariant q.Valid() && SoFar(events, fired, before, q.State())
      invariant start && ReadSinceCancel(events, |fired|) ==> Punctual(q.alarm, q.timers)
    {
      ghost var now, punctual := q.State(), Punctual(q.alarm, q.timers);
      var batch := Dispatch(q, events[|fired|]);
      OneMorePunctual(events, |fired|, start, punctual, Punctual(q.alarm, q.timers));
      OneMoreStep(events, fired, batch, before, now, q.State());
      fired := fired + [batch];
    }
  }
}
