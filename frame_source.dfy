/**
 * The frame producer `streamParts` and the buffer handoff to the display
 * loop. The outer loop (re)connects, with no pause before the first attempt
 * and a one-second pause before every later one; the inner loop reads one
 * multipart part at a time into a buffer taken from `bufPool` and either
 * hands it to the display loop over the unbuffered channel, if the display
 * loop is waiting to receive, or puts it straight back.
 *
 * The HTTP request, the connection, the media-type parsing and the multipart
 * reader are replaced by the outcome each of them had, as an `Attempt`.
 */
module FrameSource {
  import opened BufferPool
  import Boundary

  /** A part the multipart reader yielded and `ReadFrom` read completely, and whether the display loop was waiting to receive when it was offered. */
  datatype Part = Part(data: seq<Byte>, receiverReady: bool)

  /** How a connected session ends: `NextPart` fails, or `ReadFrom` fails after reading `partial`. */
  datatype SessionEnd = NextPartFailed | ReadFailed(partial: seq<Byte>)

  /** One pass of the outer loop: the stage that failed, or the session it ran. */
  datatype Attempt =
    | RequestFailed   // http.NewRequest
    | DoFailed        // client.Do
    | MimeFailed      // mime.ParseMediaType
    | Session(boundary: string, parts: seq<Part>, end: SessionEnd)

  /** What became of one buffer taken from the pool. */
  datatype Fate = Sent | PutBackUnreceived | PutBackAfterReadError

  /**
   * Whether the outer loop pauses before each of its first `n` attempts:
   * never before the first, always before every later one.
   */
  function PauseSchedule(n: nat): (r: seq<bool>)
    ensures |r| == n
    ensures forall k :: 0 <= k < n ==> r[k] == (k != 0)
  {
    if n == 0 then [] else PauseSchedule(n - 1) + [n - 1 != 0]
  }

  /** The fate of the buffer of each completely read part, in order. */
  function PartFates(parts: seq<Part>): (r: seq<Fate>)
    ensures |r| == |parts|
    ensures forall k :: 0 <= k < |parts| ==> (r[k] == Sent <==> parts[k].receiverReady)
    ensures forall k :: 0 <= k < |parts| ==> r[k] != PutBackAfterReadError
  {
    if parts == [] then []
    else PartFates(parts[..|parts| - 1]) + [if parts[|parts| - 1].receiverReady then Sent else PutBackUnreceived]
  }

  /** The fates of the buffers one session takes: one per part, and one more if a read fails. */
  function AttemptFates(a: Attempt): seq<Fate> {
    if a.Session? then
      PartFates(a.parts) + (if a.end.ReadFailed? then [PutBackAfterReadError] else [])
    else []
  }

  /** The fates of all buffers taken over a run of attempts, in order. */
  function Fates(attempts: seq<Attempt>): seq<Fate> {
    if attempts == [] then []
    else Fates(attempts[..|attempts| - 1]) + AttemptFates(attempts[|attempts| - 1])
  }

  /** The contents of the buffers one session hands downstream: the parts offered while the receiver waited. */
  function PartsDelivered(parts: seq<Part>): seq<seq<Byte>> {
    if parts == [] then []
    else
      var p := parts[|parts| - 1];
      PartsDelivered(parts[..|parts| - 1]) + (if p.receiverReady then [p.data] else [])
  }

  /** The contents of all buffers handed downstream over a run of attempts, in arrival order. */
  function Delivered(attempts: seq<Attempt>): seq<seq<Byte>> {
    if attempts == [] then []
    else
      var a := attempts[|attempts| - 1];
      Delivered(attempts[..|attempts| - 1]) + (if a.Session? then PartsDelivered(a.parts) else [])
  }

  /** The boundaries the multipart readers are built with, one per session. */
  function Readers(attempts: seq<Attempt>): seq<string> {
    if attempts == [] then []
    else
      var a := attempts[|attempts| - 1];
      Readers(attempts[..|attempts| - 1]) + (if a.Session? then [Boundary.Trim(a.boundary)] else [])
  }

  /** Within one session, the number of `Sent` fates equals the number of delivered frames. */
  lemma {:induction false} PartsSentAreDelivered(parts: seq<Part>)
    ensures multiset(PartFates(parts))[Sent] == |PartsDelivered(parts)|
  {
    if parts != [] {
      PartsSentAreDelivered(parts[..|parts| - 1]);
    }
  }

  /** Over a whole run, the number of `Sent` fates equals the number of delivered frames. */
  lemma {:induction false} SentAreDelivered(attempts: seq<Attempt>)
    ensures multiset(Fates(attempts))[Sent] == |Delivered(attempts)|
  {
    if attempts != [] {
      var a := attempts[|attempts| - 1];
      SentAreDelivered(attempts[..|attempts| - 1]);
      if a.Session? {
        PartsSentAreDelivered(a.parts);
      }
    }
  }

  /** No boundary in `bs` starts or ends with a hyphen. */
  predicate AllTrimmed(bs: seq<string>) {
    forall k :: 0 <= k < |bs| ==> Boundary.NoHyphenEnds(bs[k])
  }

  /** No multipart reader is ever given a boundary that starts or ends with a hyphen. */
  lemma {:induction false} ReadersTrimmed(attempts: seq<Attempt>)
    ensures AllTrimmed(Readers(attempts))
  {
    if attempts != [] {
      var prefix := attempts[..|attempts| - 1];
      var a := attempts[|attempts| - 1];
      ReadersTrimmed(prefix);
      var tail := if a.Session? then [Boundary.Trim(a.boundary)] else [];
      assert AllTrimmed(tail);
      assert Readers(attempts) == Readers(prefix) + tail;
      AppendTrimmed(Readers(prefix), tail);
    }
  }

  /** Joining two runs of trimmed boundaries gives a run of trimmed boundaries. */
  lemma AppendTrimmed(xs: seq<string>, ys: seq<string>)
    requires AllTrimmed(xs) && AllTrimmed(ys)
    ensures AllTrimmed(xs + ys)
  {
    forall k | 0 <= k < |xs + ys| ensures Boundary.NoHyphenEnds((xs + ys)[k]) {
      if k < |xs| {
        assert (xs + ys)[k] == xs[k];
      } else {
        assert (xs + ys)[k] == ys[k - |xs|];
      }
    }
  }

  /**
   * Attempts that fail before a session starts (a bad request, a failed
   * connection, an unparsable media type) emit nothing and take no buffer.
   */
  lemma {:induction false} FailedConnectsEmitNothing(attempts: seq<Attempt>)
    requires forall k :: 0 <= k < |attempts| ==> !attempts[k].Session?
    ensures Delivered(attempts) == [] && Fates(attempts) == [] && Readers(attempts) == []
  {
    if attempts != [] {
      FailedConnectsEmitNothing(attempts[..|attempts| - 1]);
    }
  }

  /** How the part-wise specification grows by one part. */
  lemma PartsStep(parts: seq<Part>, j: nat)
    requires j < |parts|
    ensures PartFates(parts[..j + 1]) == PartFates(parts[..j]) + [if parts[j].receiverReady then Sent else PutBackUnreceived]
    ensures PartsDelivered(parts[..j + 1]) == PartsDelivered(parts[..j]) + (if parts[j].receiverReady then [parts[j].data] else [])
  {
    assert parts[..j + 1][..j] == parts[..j];
  }

  /** How the attempt-wise specification grows by one attempt. */
  lemma AttemptsStep(attempts: seq<Attempt>, i: nat)
    requires i < |attempts|
    ensures Fates(attempts[..i + 1]) == Fates(attempts[..i]) + AttemptFates(attempts[i])
    ensures Delivered(attempts[..i + 1]) == Delivered(attempts[..i]) + (if attempts[i].Session? then PartsDelivered(attempts[i].parts) else [])
    ensures Readers(attempts[..i + 1]) == Readers(attempts[..i]) + (if attempts[i].Session? then [Boundary.Trim(attempts[i].boundary)] else [])
  {
    assert attempts[..i + 1][..i] == attempts[..i];
  }

  /**
   * Buffer ownership: every buffer in `buffers` is in exactly one place, the
   * pool (`free`), the display loop (`held`) or the producer (`taken`), and
   * nothing outside `buffers` is anywhere.
   */
  ghost predicate Owned(buffers: set<ByteBuffer>, free: multiset<ByteBuffer>, held: ByteBuffer?, taken: ByteBuffer?) {
    && (forall x :: x in free ==> x in buffers)
    && (held != null ==> held in buffers)
    && (taken != null ==> taken in buffers)
    && (forall x :: x in buffers ==> free[x] + (if held == x then 1 else 0) + (if taken == x then 1 else 0) == 1)
  }

  /** `Get` of a buffer that was put back moves it from the pool to the producer. */
  lemma TakeFromPool(buffers: set<ByteBuffer>, free: multiset<ByteBuffer>, held: ByteBuffer?, b: ByteBuffer)
    requires Owned(buffers, free, held, null) && b in free
    ensures Owned(buffers, free - multiset{b}, held, b) && held != b
  {
    assert free[b] == 1 && held != b;
  }

  /** `Get` of a buffer `New` created adds it to the buffers, held by the producer. */
  lemma TakeNew(buffers: set<ByteBuffer>, free: multiset<ByteBuffer>, held: ByteBuffer?, b: ByteBuffer)
    requires Owned(buffers, free, held, null) && b !in buffers
    ensures Owned(buffers + {b}, free, held, b) && |buffers + {b}| == |buffers| + 1 && held != b
  {
    assert free[b] == 0;
  }

  /** `Put` by the producer moves its buffer back to the pool. */
  lemma PutBack(buffers: set<ByteBuffer>, free: multiset<ByteBuffer>, held: ByteBuffer?, b: ByteBuffer)
    requires Owned(buffers, free, held, b)
    ensures Owned(buffers, free + multiset{b}, held, null)
  {
  }

  /** A send: the display loop puts back what it held and takes the producer's buffer. */
  lemma HandOver(buffers: set<ByteBuffer>, free: multiset<ByteBuffer>, held: ByteBuffer?, b: ByteBuffer)
    requires Owned(buffers, free, held, b)
    ensures Owned(buffers, if held == null then free else free + multiset{held}, b, null)
  {
  }

  /** With the pool empty, every buffer is the one the display loop holds, so there is at most one. */
  lemma EmptyPoolHoldsOne(buffers: set<ByteBuffer>, held: ByteBuffer?)
    requires Owned(buffers, multiset{}, held, null)
    ensures |buffers| <= 1
  {
    if buffers != {} {
      var x :| x in buffers;
      assert buffers == {x};
    }
  }

  /**
   * Concatenation of sequences is associative. A lemma of its own, so that
   * the loops of `FramePipeline` use the fact without proving it again in
   * their much larger context.
   */
  lemma Concat3<T>(a: seq<T>, b: seq<T>, c: seq<T>)
    ensures a + b + c == a + (b + c)
  {
  }

  /**
   * The producer goroutine of `streamParts` together with the buffer the
   * display loop holds. `held` is the buffer the display loop has received
   * and not yet put back (it puts it back after decoding, before it waits to
   * receive again); `delivered` records the contents of every buffer handed
   * over, in order, and like `Buffers` (every buffer `bufPool` has created) is
   * ghost: the program keeps neither.
   */
  class FramePipeline {
    const pool: Pool
    var held: ByteBuffer?
    ghost var delivered: seq<seq<Byte>>
    ghost var Buffers: set<ByteBuffer>

    /**
     * Every buffer is in exactly one place, the pool or the display loop, so
     * no buffer is ever both handed downstream and put back; at most two
     * buffers are ever created; the display loop holds what was delivered last.
     */
    ghost predicate Valid()
      reads this, pool, held
    {
      && Owned(Buffers, pool.free, held, null)
      && |Buffers| == pool.allocations <= 2
      && Intact()
    }

    /** The buffer the display loop holds still has the contents it was delivered with. */
    ghost predicate Intact()
      reads this, held
    {
      held != null ==> |delivered| > 0 && held.data == delivered[|delivered| - 1]
    }

    /** `Valid`, except that the producer itself holds `b`, which is neither in the pool nor downstream. */
    ghost predicate Taken(b: ByteBuffer)
      reads this, pool, held
    {
      && Owned(Buffers, pool.free, held, b) && held != b
      && |Buffers| == pool.allocations <= 2
      && Intact()
    }

    /** The pipeline as the program starts: an empty pool, nothing received. */
    constructor ()
      ensures Valid() && fresh(pool)
      ensures Buffers == {} && held == null && delivered == []
    {
      pool := new Pool();
      held := null;
      delivered := [];
      Buffers := {};
    }

    /** `bufPool.Get().(*bytes.Buffer)` followed by `b.Reset()`. */
    method Take() returns (b: ByteBuffer)
      requires Valid()
      modifies this, pool, Buffers
      ensures Taken(b) && b.data == []
      ensures old(pool.free) == multiset{} ==> fresh(b) && Buffers == old(Buffers) + {b}
      ensures old(pool.free) != multiset{} ==> Buffers == old(Buffers)
      ensures held == old(held) && delivered == old(delivered)
    {
      ghost var wasEmpty := pool.free == multiset{};
      if wasEmpty {
        EmptyPoolHoldsOne(Buffers, held);
      }
      ghost var before := pool.free;
      b := pool.Get();
      if wasEmpty {
        TakeNew(Buffers, pool.free, held, b);
      } else {
        TakeFromPool(Buffers, before, held, b);
      }
      b.Reset();
      if wasEmpty {
        Buffers := Buffers + {b};
      }
    }

    /** `b.ReadFrom(r)` on the buffer the producer took: only that buffer changes. */
    method Fill(b: ByteBuffer, chunk: seq<Byte>)
      requires Taken(b)
      modifies b
      ensures Taken(b) && b.data == old(b.data) + chunk
    {
      b.ReadFrom(chunk);
    }

    /**
     * The non-blocking send `select { case ch <- b: default: bufPool.Put(b) }`.
     * A waiting receiver has already put back the buffer it held before;
     * it then takes `b`. Without a waiting receiver, `b` goes back to the pool.
     */
    method Offer(b: ByteBuffer, receiverReady: bool) returns (sent: bool)
      requires Taken(b)
      modifies this, pool
      ensures Valid() && Buffers == old(Buffers)
      ensures sent == receiverReady
      ensures sent ==>
        && held == b && delivered == old(delivered) + [b.data]
        && pool.free == (if old(held) == null then old(pool.free) else old(pool.free) + multiset{old(held)})
      ensures !sent ==>
        && held == old(held) && delivered == old(delivered)
        && pool.free == old(pool.free) + multiset{b}
    {
      if receiverReady {
        HandOver(Buffers, pool.free, held, b);
        if held != null {
          pool.Put(held);
        }
        held := b;
        delivered := delivered + [b.data];
        sent := true;
      } else {
        Discard(b);
        sent := false;
      }
    }

    /** `bufPool.Put(b)` by the producer: the buffer it took goes back to the pool. */
    method Discard(b: ByteBuffer)
      requires Taken(b)
      modifies pool
      ensures Valid() && pool.free == old(pool.free) + multiset{b}
    {
      PutBack(Buffers, pool.free, held, b);
      pool.Put(b);
    }

    /**
     * One pass of the inner loop for a part read completely: the buffer is
     * taken, reset, filled with the part and offered downstream.
     */
    method OfferPart(p: Part) returns (fate: Fate)
      requires Valid()
      modifies this, pool, Buffers
      ensures Valid() && fresh(Buffers - old(Buffers))
      ensures fate == (if p.receiverReady then Sent else PutBackUnreceived)
      ensures delivered == old(delivered) + (if p.receiverReady then [p.data] else [])
    {
      var b := Take();
      Fill(b, p.data);
      assert b.data == p.data;
      var sent := Offer(b, p.receiverReady);
      fate := if sent then Sent else PutBackUnreceived;
    }

    /**
     * The pass of the inner loop whose `ReadFrom` fails: the buffer, holding
     * what was read, goes back to the pool and nothing is sent.
     */
    method DiscardPartial(partial: seq<Byte>) returns (fate: Fate)
      requires Valid()
      modifies this, pool, Buffers
      ensures Valid() && fresh(Buffers - old(Buffers))
      ensures fate == PutBackAfterReadError
      ensures delivered == old(delivered) && held == old(held)
    {
      var b := Take();
      Fill(b, partial);
      Discard(b);
      fate := PutBackAfterReadError;
    }

    /**
     * The inner loop of one connected session: for each part a buffer is
     * taken, reset, filled and offered; when `ReadFrom` fails, the buffer it
     * was reading into is put back and the session ends.
     */
    method RunSession(parts: seq<Part>, end: SessionEnd) returns (fates: seq<Fate>)
      requires Valid()
      modifies this, pool, Buffers
      ensures Valid() && fresh(Buffers - old(Buffers))
      ensures fates == AttemptFates(Session([], parts, end))
      ensures delivered == old(delivered) + PartsDelivered(parts)
    {
      ghost var initial := delivered;
      fates := [];
      var j := 0;
      while j < |parts|
        invariant 0 <= j <= |parts|
        invariant Valid() && fresh(Buffers - old(Buffers))
        invariant fates == PartFates(parts[..j])
        invariant delivered == initial + PartsDelivered(parts[..j])
      {
        var fate := OfferPart(parts[j]);
        fates := fates + [fate];
        PartsStep(parts, j);
        Concat3(initial, PartsDelivered(parts[..j]), if parts[j].receiverReady then [parts[j].data] else []);
        j := j + 1;
      }
      assert parts[..|parts|] == parts;
      match end
      case NextPartFailed =>
      case ReadFailed(partial) =>
        var fate := DiscardPartial(partial);
        fates := fates + [fate];
    }

    /**
     * One pass of the outer loop after its pause: nothing more happens when
     * the request, the connection or the media type fails; a session builds
     * its reader with the trimmed boundary and runs the inner loop.
     */
    method RunAttempt(a: Attempt) returns (readers: seq<string>, fates: seq<Fate>)
      requires Valid()
      modifies this, pool, Buffers
      ensures Valid() && fresh(Buffers - old(Buffers))
      ensures readers == (if a.Session? then [Boundary.Trim(a.boundary)] else [])
      ensures fates == AttemptFates(a)
      ensures delivered == old(delivered) + (if a.Session? then PartsDelivered(a.parts) else [])
    {
      readers, fates := [], [];
      match a {
        case RequestFailed =>
        case DoFailed =>
        case MimeFailed =>
        case Session(boundary, parts, end) =>
          readers := [Boundary.Trim(boundary)];
          fates := RunSession(parts, end);
      }
    }

    /**
     * The outer loop of `streamParts` over a run of attempts. It pauses
     * before every attempt but the first, whichever stage failed before;
     * each session's reader gets the trimmed boundary; every buffer taken
     * meets exactly one fate; the frames delivered are the parts offered
     * while the receiver waited, with exactly their bytes, in order.
     */
    method StreamParts(attempts: seq<Attempt>) returns (pausedBefore: seq<bool>, readers: seq<string>, fates: seq<Fate>)
      requires Valid()
      modifies this, pool, Buffers
      ensures Valid() && fresh(Buffers - old(Buffers))
      ensures pausedBefore == PauseSchedule(|attempts|)
      ensures readers == Readers(attempts)
      ensures fates == Fates(attempts)
      ensures delivered == old(delivered) + Delivered(attempts)
    {
      ghost var initial := delivered;
      var first := true;
      pausedBefore, readers, fates := [], [], [];
      var i := 0;
      while i < |attempts|
        invariant 0 <= i <= |attempts|
        invariant Valid() && fresh(Buffers - old(Buffers))
        invariant first == (i == 0)
        invariant pausedBefore == PauseSchedule(i)
        invariant readers == Readers(attempts[..i])
        invariant fates == Fates(attempts[..i])
        invariant delivered == initial + Delivered(attempts[..i])
      {
        // time.Sleep(time.Second) on every pass but the first
        pausedBefore := pausedBefore + [!first];
        first := false;
        ghost var before := delivered;
        var r, f := RunAttempt(attempts[i]);
        readers := readers + r;
        fates := fates + f;
        AttemptsStep(attempts, i);
        Concat3(initial, Delivered(attempts[..i]), if attempts[i].Session? then PartsDelivered(attempts[i].parts) else []);
        i := i + 1;
      }
      assert attempts[..|attempts|] == attempts;
    }
  }
}
