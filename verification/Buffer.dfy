/** The growable input/output buffer of the network library: one array, a read
    index and a write index.  Every method is specified on `Contents()`, the
    plain byte sequence between the two indices. */
module Buffers {
  import opened Options

  newtype byte = x: int | 0 <= x < 256
  type Bytes = seq<byte>

  const CR: byte := 13
  const LF: byte := 10
  const CRLF: Bytes := [CR, LF]

  const CHEAP_PREPEND: nat := 8
  const INITIAL_SIZE: nat := 1024
  const SPILL_SIZE: nat := 65536

  predicate CrlfAt(s: Bytes, i: nat) {
    i + 1 < |s| && s[i] == CR && s[i + 1] == LF
  }

  /** The position of the first CR LF pair. */
  function FirstCrlf(s: Bytes): (r: Option<nat>)
    ensures r.Some? ==> CrlfAt(s, r.value) && forall j: nat :: j < r.value ==> !CrlfAt(s, j)
    ensures r.None? ==> forall j: nat :: !CrlfAt(s, j)
  {
    if |s| < 2 then None
    else if CrlfAt(s, 0) then Some(0)
    else
      assert forall j: nat :: j > 0 ==> (CrlfAt(s, j) <==> CrlfAt(s[1..], j - 1));
      match FirstCrlf(s[1..])
      case None => assert forall j: nat {:trigger CrlfAt(s, j)} :: j > 0 ==> !CrlfAt(s[1..], j - 1); None
      case Some(k) =>
        assert forall j: nat {:trigger CrlfAt(s, j)} :: 0 < j < k + 1 ==> !CrlfAt(s[1..], j - 1);
        Some(k + 1)
  }

  /** More bytes at the end never move the first CR LF. */
  lemma FirstCrlfStable(s: Bytes, t: Bytes)
    requires FirstCrlf(s).Some?
    ensures FirstCrlf(s + t) == FirstCrlf(s)
  {
    var k := FirstCrlf(s).value;
    assert CrlfAt(s + t, k);
    assert forall j: nat :: j < k ==> (CrlfAt(s + t, j) <==> CrlfAt(s, j));
    var k' := FirstCrlf(s + t).value;
    assert k' < k ==> CrlfAt(s, k');
  }

  /** What `readv` reported: an errno, or the bytes it delivered (none at end of file). */
  datatype ReadResult = Failed(errno: int) | Got(bytes: Bytes)

  /** Two ranges with the same bytes. */
  lemma SameRange(s: Bytes, i: nat, t: Bytes, j: nat, n: nat)
    requires i + n <= |s| && j + n <= |t|
    requires forall k :: i <= k < i + n ==> s[k] == t[k - i + j]
    ensures s[i..i + n] == t[j..j + n]
  {
  }

  /** `std::copy` onto a lower, possibly overlapping, range of the same array. */
  method CopyDown(a: array<byte>, src: nat, dst: nat, n: nat)
    requires dst <= src && src + n <= a.Length
    modifies a
    ensures a[..][dst..dst + n] == old(a[..])[src..src + n]
    ensures a[..][0..dst] == old(a[..])[0..dst]
  {
    ghost var before := a[..];
    ghost var gap := src - dst;
    var i := 0;
    while i < n
      invariant 0 <= i <= n
      invariant forall k :: dst <= k < dst + i ==> a[k] == before[k + gap]
      invariant forall k :: 0 <= k < dst || dst + i <= k < a.Length ==> a[k] == before[k]
    {
      a[dst + i] := a[src + i];
      i := i + 1;
    }
    SameRange(a[..], dst, before, src, n);
    SameRange(a[..], 0, before, 0, dst);
  }

  /** A slice of the readable region is a slice of the array. */
  lemma SliceOfSlice(a: array<byte>, lo: nat, hi: nat, n: nat)
    requires lo <= hi <= a.Length && n <= hi - lo
    ensures a[lo..hi][..n] == a[lo..lo + n]
  {
    var s, r := a[lo..hi][..n], a[lo..lo + n];
    assert |s| == |r| && forall k :: 0 <= k < n ==> s[k] == a[lo + k] == r[k];
  }

  /** `bytes` lie at `dst` in `after`, which is otherwise `before`, seen through a window. */
  lemma Window(before: Bytes, after: Bytes, bytes: Bytes, dst: nat, lo: nat, hi: nat)
    requires lo <= dst && dst + |bytes| <= hi <= |before| == |after|
    requires forall k :: 0 <= k < dst || dst + |bytes| <= k < |before| ==> after[k] == before[k]
    requires after[dst..dst + |bytes|] == bytes
    ensures after[lo..hi] == before[lo..dst] + bytes + before[dst + |bytes|..hi]
  {
    var mid := dst + |bytes|;
    assert after[lo..dst] == before[lo..dst] && after[mid..hi] == before[mid..hi];
    assert after[lo..hi] == after[lo..dst] + after[dst..mid] + after[mid..hi];
  }

  /** `std::copy` from outside memory, seen through any window `lo..hi` around the target. */
  method CopyIn(bytes: Bytes, a: array<byte>, dst: nat, ghost lo: nat, ghost hi: nat)
    requires lo <= dst && dst + |bytes| <= hi <= a.Length
    modifies a
    ensures a[lo..hi] == old(a[..])[lo..dst] + bytes + old(a[..])[dst + |bytes|..hi]
  {
    ghost var before := a[..];
    var i := 0;
    while i < |bytes|
      invariant 0 <= i <= |bytes|
      invariant forall k :: dst <= k < dst + i ==> a[k] == bytes[k - dst]
      invariant forall k :: 0 <= k < dst || dst + |bytes| <= k < a.Length ==> a[k] == before[k]
    {
      a[dst + i] := bytes[i];
      i := i + 1;
    }
    assert a[..][dst..dst + |bytes|] == bytes;
    Window(before, a[..], bytes, dst, lo, hi);
    assert a[..][lo..hi] == a[lo..hi];
  }

  /** All that a buffer's behaviour depends on: the readable bytes, the room in front of
      them, and the size of the array. */
  datatype Shape = Shape(contents: Bytes, front: nat, size: nat)

  predicate Fits(b: Shape) {
    b.front + |b.contents| <= b.size && CHEAP_PREPEND <= b.size
  }

  function Tail(b: Shape): nat
    requires Fits(b)
  {
    b.size - b.front - |b.contents|
  }

  /** What one scatter read offers to the kernel. */
  function Offered(b: Shape): nat
    requires Fits(b)
  {
    Tail(b) + if Tail(b) < SPILL_SIZE then SPILL_SIZE else 0
  }

  /** `ensureWritableBytes`: the array grows, or the readable bytes slide down. */
  function WithRoom(b: Shape, n: nat): (r: Shape)
    requires Fits(b)
    ensures Fits(r) && Tail(r) >= n && r.contents == b.contents
    // it grows only when the bytes would not fit behind the eight, and then no more than needed
    ensures r.size > b.size <==> Tail(b) < n && b.size < CHEAP_PREPEND + |b.contents| + n
    ensures r.size > b.size ==> Tail(r) == n
    ensures r.front == b.front || r.front == CHEAP_PREPEND < b.front
  {
    if Tail(b) >= n then b
    else if Tail(b) + b.front < n + CHEAP_PREPEND then b.(size := b.front + |b.contents| + n)
    else b.(front := CHEAP_PREPEND)
  }

  function Appended(b: Shape, bytes: Bytes): (r: Shape)
    requires Fits(b)
    ensures Fits(r) && r.contents == b.contents + bytes
  {
    WithRoom(b, |bytes|).(contents := b.contents + bytes)
  }

  function Retrieved(b: Shape, n: nat): (r: Shape)
    requires Fits(b) && n <= |b.contents|
    ensures Fits(r) && r.contents == b.contents[n..] && r.size == b.size
    ensures r.contents == [] ==> r.front == CHEAP_PREPEND
    ensures r.contents != [] ==> Tail(r) == Tail(b)
  {
    if n < |b.contents| then b.(contents := b.contents[n..], front := b.front + n)
    else b.(contents := [], front := CHEAP_PREPEND)
  }

  /** The tail of the array is filled first; what is left is appended. */
  function Scattered(b: Shape, bytes: Bytes): (r: Shape)
    requires Fits(b)
    ensures Fits(r) && r.contents == b.contents + bytes
  {
    if |bytes| <= Tail(b) then b.(contents := b.contents + bytes)
    else
      var k := Tail(b);
      assert bytes == bytes[..k] + bytes[k..];
      Appended(b.(contents := b.contents + bytes[..k]), bytes[k..])
  }

  const NEW_BUFFER := Shape([], CHEAP_PREPEND, CHEAP_PREPEND + INITIAL_SIZE)

  class Buffer {
    var data: array<byte>
    var readIndex: nat
    var writeIndex: nat

    ghost predicate Valid()
      reads this
    {
      && readIndex <= writeIndex <= data.Length
      && CHEAP_PREPEND <= data.Length
    }

    /** The readable region. */
    ghost function Contents(): (s: Bytes)
      requires Valid()
      reads this, data
    {
      data[readIndex..writeIndex]
    }

    ghost function View(): (b: Shape)
      requires Valid()
      reads this, data
      ensures Fits(b)
    {
      Shape(Contents(), readIndex, data.Length)
    }

    constructor ()
      ensures Valid() && fresh(data) && View() == NEW_BUFFER
      ensures Prependable() == CHEAP_PREPEND && Writable() == INITIAL_SIZE
    {
      data := new byte[CHEAP_PREPEND + INITIAL_SIZE];
      readIndex := CHEAP_PREPEND;
      writeIndex := CHEAP_PREPEND;
    }

    function Readable(): (n: nat)
      requires Valid()
      reads this, data
      ensures n == |Contents()|
    {
      writeIndex - readIndex
    }

    function Writable(): nat
      requires Valid()
      reads this
    {
      data.Length - writeIndex
    }

    function Prependable(): nat
      reads this
    {
      readIndex
    }

    /** A copy of the first `n` readable bytes. */
    function Peek(n: nat): (s: Bytes)
      requires Valid() && n <= Readable()
      reads this, data
      ensures s == Contents()[..n]
    {
      SliceOfSlice(data, readIndex, writeIndex, n);
      data[readIndex..readIndex + n]
    }

    method FindCRLF() returns (r: Option<nat>)
      requires Valid()
      ensures r == FirstCrlf(Contents())
    {
      var i := readIndex;
      while i + 1 < writeIndex
        invariant readIndex <= i <= writeIndex
        invariant forall j: nat :: j < i - readIndex ==> !CrlfAt(Contents(), j)
      {
        assert Contents()[i - readIndex] == data[i] && Contents()[i + 1 - readIndex] == data[i + 1];
        assert CrlfAt(Contents(), i - readIndex) <==> data[i] == CR && data[i + 1] == LF;
        if data[i] == CR && data[i + 1] == LF {
          return Some(i - readIndex);
        }
        i := i + 1;
      }
      return None;
    }

    method Retrieve(n: nat)
      requires Valid() && n <= Readable()
      modifies `readIndex, `writeIndex
      ensures Valid() && data == old(data)
      ensures Contents() == old(Contents())[n..] && View() == Retrieved(old(View()), n)
    {
      if n < writeIndex - readIndex {
        readIndex := readIndex + n;
      } else {
        RetrieveAll();
      }
    }

    /** `end` is a position in the readable region, counted from `peek()`. */
    method RetrieveUntil(end: nat)
      requires Valid() && end <= Readable()
      modifies `readIndex, `writeIndex
      ensures Valid() && data == old(data)
      ensures Contents() == old(Contents())[end..] && View() == Retrieved(old(View()), end)
    {
      Retrieve(end);
    }

    method RetrieveAll()
      requires Valid()
      modifies `readIndex, `writeIndex
      ensures Valid() && data == old(data)
      ensures Contents() == [] && Prependable() == CHEAP_PREPEND
    {
      readIndex := CHEAP_PREPEND;
      writeIndex := CHEAP_PREPEND;
    }

    method RetrieveAsString() returns (s: Bytes)
      requires Valid()
      modifies `readIndex, `writeIndex
      ensures Valid() && data == old(data)
      ensures s == old(Contents()) && Contents() == []
    {
      s := data[readIndex..writeIndex];
      RetrieveAll();
    }

    /** Grows the array, or slides the readable bytes down to the cheap-prepend mark. */
    method MakeSpace(n: nat)
      requires Valid() && Writable() < n
      modifies `data, `readIndex, `writeIndex, data
      ensures Valid() && (data == old(data) || fresh(data))
      ensures Contents() == old(Contents()) && Writable() >= n
      ensures View() == WithRoom(old(View()), n)
    {
      if data.Length - writeIndex + readIndex < n + CHEAP_PREPEND {
        var bigger := new byte[writeIndex + n];
        var i := 0;
        while i < data.Length
          invariant 0 <= i <= data.Length
          invariant unchanged(this) && unchanged(data) && bigger.Length >= data.Length
          invariant forall k :: 0 <= k < i ==> bigger[k] == data[k]
        {
          bigger[i] := data[i];
          i := i + 1;
        }
        data := bigger;
      } else {
        assert CHEAP_PREPEND < readIndex;
        var readable := writeIndex - readIndex;
        CopyDown(data, readIndex, CHEAP_PREPEND, readable);
        readIndex := CHEAP_PREPEND;
        writeIndex := readIndex + readable;
      }
    }

    method EnsureWritableBytes(n: nat)
      requires Valid()
      modifies `data, `readIndex, `writeIndex, data
      ensures Valid() && (data == old(data) || fresh(data))
      ensures Contents() == old(Contents()) && Writable() >= n
      ensures View() == WithRoom(old(View()), n)
    {
      if data.Length - writeIndex < n {
        MakeSpace(n);
      }
    }

    method Append(bytes: Bytes)
      requires Valid()
      modifies `data, `readIndex, `writeIndex, data
      ensures Valid() && (data == old(data) || fresh(data))
      ensures Contents() == old(Contents()) + bytes && View() == Appended(old(View()), bytes)
    {
      EnsureWritableBytes(|bytes|);
      CopyIn(bytes, data, writeIndex, readIndex, writeIndex + |bytes|);
      writeIndex := writeIndex + |bytes|;
    }

    /** The caller must fit in front of the readable bytes. */
    method Prepend(bytes: Bytes)
      requires Valid() && |bytes| <= Prependable()
      modifies `readIndex, data
      ensures Valid() && data == old(data) && readIndex == old(readIndex) - |bytes|
      ensures Contents() == bytes + old(Contents())
    {
      readIndex := readIndex - |bytes|;
      CopyIn(bytes, data, readIndex, readIndex, writeIndex);
    }

    /** One scatter read: the free tail of the array first, then a 64 KiB spill
        area that is only offered when the tail is smaller than it. */
    method ReadFd(result: ReadResult) returns (n: int, savedErrno: Option<int>)
      requires Valid()
      requires result.Got? ==> |result.bytes| <= Offered(View())
      modifies `data, `readIndex, `writeIndex, data
      ensures Valid() && (data == old(data) || fresh(data))
      ensures result.Failed? ==> n < 0 && savedErrno == Some(result.errno) && View() == old(View())
      ensures result.Got? ==> n == |result.bytes| && savedErrno == None
      ensures result.Got? ==> Contents() == old(Contents()) + result.bytes && View() == Scattered(old(View()), result.bytes)
    {
      savedErrno := None;
      if result.Failed? {
        return -1, Some(result.errno);
      }
      n := |result.bytes|;
      Scatter(result.bytes);
    }

    /** `readv` fills the tail of the array and then the spill area, which is appended. */
    method Scatter(bytes: Bytes)
      requires Valid()
      modifies `data, `readIndex, `writeIndex, data
      ensures Valid() && (data == old(data) || fresh(data))
      ensures Contents() == old(Contents()) + bytes && View() == Scattered(old(View()), bytes)
    {
      var writable := data.Length - writeIndex;
      if |bytes| <= writable {
        CopyIn(bytes, data, writeIndex, readIndex, writeIndex + |bytes|);
        writeIndex := writeIndex + |bytes|;
      } else {
        var direct, spill := bytes[..writable], bytes[writable..];
        CopyIn(direct, data, writeIndex, readIndex, data.Length);
        writeIndex := data.Length;
        assert Contents() == old(Contents()) + direct;
        Append(spill);
        assert bytes == direct + spill;
      }
    }
  }

  /** One call on a buffer. */
  datatype Op =
    | Append(bytes: Bytes)
    | Prepend(bytes: Bytes)
    | Retrieve(n: nat)
    | RetrieveUntil(end: nat)
    | ReadFd(result: ReadResult)

  /** The same call on a plain byte sequence. */
  function OnBytes(s: Bytes, op: Op): Bytes {
    match op
    case Append(bytes) => s + bytes
    case Prepend(bytes) => bytes + s
    case Retrieve(n) => if n <= |s| then s[n..] else []
    case RetrieveUntil(end) => if end <= |s| then s[end..] else []
    case ReadFd(Failed(_)) => s
    case ReadFd(Got(bytes)) => s + bytes
  }

  /** The call meets the assertion on its argument, and a read delivers no more than the
      kernel was offered. */
  predicate Legal(b: Shape, op: Op)
    requires Fits(b)
  {
    match op
    case Append(_) => true
    case Prepend(bytes) => |bytes| <= b.front
    case Retrieve(n) => n <= |b.contents|
    case RetrieveUntil(end) => end <= |b.contents|
    case ReadFd(Failed(_)) => true
    case ReadFd(Got(bytes)) => |bytes| <= Offered(b)
  }

  function Apply(b: Shape, op: Op): (r: Shape)
    requires Fits(b) && Legal(b, op)
    ensures Fits(r) && r.contents == OnBytes(b.contents, op)
  {
    match op
    case Append(bytes) => Appended(b, bytes)
    case Prepend(bytes) => b.(contents := bytes + b.contents, front := b.front - |bytes|)
    case Retrieve(n) => Retrieved(b, n)
    case RetrieveUntil(end) => Retrieved(b, end)
    case ReadFd(Failed(_)) => b
    case ReadFd(Got(bytes)) => Scattered(b, bytes)
  }

  predicate LegalRun(b: Shape, ops: seq<Op>)
    requires Fits(b)
    decreases |ops|, 0
  {
    ops == [] ||
    (LegalRun(b, ops[..|ops| - 1]) && Legal(Replay(b, ops[..|ops| - 1]), ops[|ops| - 1]))
  }

  function Replay(b: Shape, ops: seq<Op>): (r: Shape)
    requires Fits(b) && LegalRun(b, ops)
    ensures Fits(r) && r.contents == ReplayBytes(b.contents, ops)
    decreases |ops|, 1
  {
    if ops == [] then b else Apply(Replay(b, ops[..|ops| - 1]), ops[|ops| - 1])
  }

  function ReplayBytes(s: Bytes, ops: seq<Op>): Bytes {
    if ops == [] then s else OnBytes(ReplayBytes(s, ops[..|ops| - 1]), ops[|ops| - 1])
  }

  lemma ReplayOneMore(b: Shape, ops: seq<Op>, k: nat)
    requires Fits(b) && k < |ops| && LegalRun(b, ops[..k]) && Legal(Replay(b, ops[..k]), ops[k])
    ensures LegalRun(b, ops[..k + 1])
    ensures Replay(b, ops[..k + 1]) == Apply(Replay(b, ops[..k]), ops[k])
  {
    assert ops[..k + 1][..k] == ops[..k];
  }

  method RunOp(b: Buffer, op: Op)
    requires b.Valid() && Legal(b.View(), op)
    modifies b, b.data
    ensures b.Valid() && (b.data == old(b.data) || fresh(b.data))
    ensures b.View() == Apply(old(b.View()), op)
  {
    match op {
      case Append(bytes) => b.Append(bytes);
      case Prepend(bytes) => b.Prepend(bytes);
      case Retrieve(n) => b.Retrieve(n);
      case RetrieveUntil(end) => b.RetrieveUntil(end);
      case ReadFd(result) => var _, _ := b.ReadFd(result);
    }
  }

  /** One call, unless its assertion fails. */
  method TryOp(b: Buffer, op: Op) returns (done: bool)
    requires b.Valid()
    modifies b, b.data
    ensures b.Valid() && (b.data == old(b.data) || fresh(b.data))
    ensures done == Legal(old(b.View()), op)
    ensures b.View() == if done then Apply(old(b.View()), op) else old(b.View())
  {
    done := MeetsAssertion(b, op);
    if done {
      RunOp(b, op);
    }
  }

  /** Any sequence of calls, on a buffer in any state, acts exactly like the byte
      sequence up to the first call that breaks an assertion on its own argument, if
      there is one; no other assertion is ever tripped. */
  method RunOps(b: Buffer, ops: seq<Op>) returns (k: nat)
    requires b.Valid()
    modifies b, b.data
    ensures b.Valid() && (b.data == old(b.data) || fresh(b.data))
    ensures k <= |ops| && LegalRun(old(b.View()), ops[..k]) && b.View() == Replay(old(b.View()), ops[..k])
    ensures b.Contents() == ReplayBytes(old(b.Contents()), ops[..k])
    ensures k < |ops| ==> !Legal(b.View(), ops[k])
  {
    k := 0;
    while k < |ops|
      invariant k <= |ops| && b.Valid() && (b.data == old(b.data) || fresh(b.data))
      invariant LegalRun(old(b.View()), ops[..k]) && b.View() == Replay(old(b.View()), ops[..k])
    {
      var done := TryOp(b, ops[k]);
      if !done {
        return;
      }
      ReplayOneMore(old(b.View()), ops, k);
      k := k + 1;
    }
  }

  method MeetsAssertion(b: Buffer, op: Op) returns (legal: bool)
    requires b.Valid()
    ensures legal == Legal(b.View(), op)
  {
    match op {
      case Append(_) => legal := true;
      case Prepend(bytes) => legal := |bytes| <= b.Prependable();
      case Retrieve(n) => legal := n <= b.Readable();
      case RetrieveUntil(end) => legal := end <= b.Readable();
      case ReadFd(Failed(_)) => legal := true;
      case ReadFd(Got(bytes)) =>
        legal := |bytes| <= b.Writable() + if b.Writable() < SPILL_SIZE then SPILL_SIZE else 0;
    }
  }

  /** The eight bytes in front are always there: unless something was prepended since the
      buffer was new, a prepend meets its assertion whenever it is that short, whatever
      was appended, read and retrieved. */
  lemma {:induction false} CheapPrependFits(ops: seq<Op>, bytes: Bytes)
    requires LegalRun(NEW_BUFFER, ops) && (forall op :: op in ops ==> !op.Prepend?)
    ensures Replay(NEW_BUFFER, ops).front >= CHEAP_PREPEND
    ensures |bytes| <= CHEAP_PREPEND ==> Legal(Replay(NEW_BUFFER, ops), Prepend(bytes))
  {
    if ops == [] {
    } else {
      var n := |ops| - 1;
      assert ops[n] in ops && forall op :: op in ops[..n] ==> op in ops;
      CheapPrependFits(ops[..n], bytes);
    }
  }
}
