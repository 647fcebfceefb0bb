/** The ring that carries encoded A2DP data from the main core (MCU) to the coprocessor (CP).

    The two cores share `cp_in_cache`, `cp_in_wpos` and `cp_in_rpos` without a lock. Each core
    copies the other's index into a local variable, moves bytes by that stale copy, and publishes
    its own index at the end. */
module A2dpInCache {
  import opened Bytes

  // ---------------------------------------------------------------------------------------------
  // Positions in the ring
  // ---------------------------------------------------------------------------------------------

  /** `cp_update_in_cache_pos`: one conditional subtraction, no division. */
  function Advance(pos: nat, len: nat, size: nat): (r: nat)
    requires pos < size && len <= size
    ensures r < size && (r == pos + len || r == pos + len - size)
  {
    if pos + len >= size then pos + len - size else pos + len
  }

  /** `cp_get_in_cache_data_len`: the distance the reader may travel. */
  function DataLen(wpos: nat, rpos: nat, size: nat): (n: nat)
    requires wpos < size && rpos < size
    ensures n < size && Advance(rpos, n, size) == wpos
  {
    if wpos >= rpos then wpos - rpos else size - rpos + wpos
  }

  /** The writer's free space: one cell always stays empty. */
  function FreeLen(wpos: nat, rpos: nat, size: nat): (n: nat)
    requires wpos < size && rpos < size
    ensures n + DataLen(wpos, rpos, size) == size - 1
  {
    if wpos < rpos then rpos - wpos - 1 else size - wpos + rpos - 1
  }

  /** The `n` bytes met when walking from `pos`. */
  function Window(cache: seq<byte>, pos: nat, n: nat): (w: seq<byte>)
    requires pos < |cache| && n <= |cache|
    ensures |w| == n
  {
    seq(n, k requires 0 <= k < n => cache[Advance(pos, k, |cache|)])
  }

  /** The ring after `data` has been laid out from `pos`, wrapping at the end. */
  function RingWrite(cache: seq<byte>, pos: nat, data: seq<byte>): (after: seq<byte>)
    requires pos < |cache| && |data| <= |cache|
    ensures |after| == |cache|
  {
    seq(|cache|, i requires 0 <= i < |cache| =>
      var k := DataLen(i, pos, |cache|);
      if k < |data| then data[k] else cache[i])
  }

  /** Writing right behind a window leaves the window alone and extends it by what was written. */
  lemma WriteExtendsWindow(cache: seq<byte>, pos: nat, n: nat, data: seq<byte>)
    requires pos < |cache| && n + |data| <= |cache|
    ensures var after := RingWrite(cache, Advance(pos, n, |cache|), data);
            && Window(after, pos, n) == Window(cache, pos, n)
            && Window(after, pos, n + |data|) == Window(cache, pos, n) + data
  {
    var size := |cache|;
    var at := Advance(pos, n, size);
    var after := RingWrite(cache, at, data);
    forall k | 0 <= k < n + |data|
      ensures after[Advance(pos, k, size)] == if k < n then cache[Advance(pos, k, size)] else data[k - n]
    {
      var i := Advance(pos, k, size);
      assert DataLen(i, at, size) == if k < n then (if size - n + k < size then size - n + k else 0) else k - n;
    }
  }

  /** Two writes in a row are one write of both pieces. */
  lemma WriteInPieces(cache: seq<byte>, pos: nat, a: seq<byte>, b: seq<byte>)
    requires pos < |cache| && |a| + |b| <= |cache|
    ensures RingWrite(RingWrite(cache, pos, a), Advance(pos, |a|, |cache|), b) == RingWrite(cache, pos, a + b)
  {
    var size := |cache|;
    var mid := RingWrite(cache, pos, a);
    var at := Advance(pos, |a|, size);
    forall i | 0 <= i < size
      ensures RingWrite(mid, at, b)[i] == RingWrite(cache, pos, a + b)[i]
    {
      var k := DataLen(i, pos, size);
      if |a| < size {
        assert k >= |a| ==> DataLen(i, at, size) == k - |a|;
        assert k < |a| ==> DataLen(i, at, size) >= |b|;
      }
    }
  }

  lemma WindowSuffix(cache: seq<byte>, pos: nat, n: nat, k: nat)
    requires pos < |cache| && k <= n <= |cache|
    ensures Window(cache, pos, n)[k..] == Window(cache, Advance(pos, k, |cache|), n - k)
  {
  }

  lemma WindowPrefix(cache: seq<byte>, pos: nat, n: nat, k: nat)
    requires pos < |cache| && k <= n <= |cache|
    ensures Window(cache, pos, n)[..k] == Window(cache, pos, k)
  {
  }

  // ---------------------------------------------------------------------------------------------
  // The two cores, interleaved
  // ---------------------------------------------------------------------------------------------

  /** Where the MCU is inside `mcu_load_a2dp_encoded_data`. */
  datatype Mcu =
    | Ready
    | Measured(rpos: nat)                                  // holds a copy of `cp_in_rpos`
    | Copying(rpos: nat, chunk: seq<byte>, done: nat)      // `done` bytes of the peeked chunk are in the ring
    | Dequeuing(len: nat)                                  // index published, `sbc_queue` not yet shortened

  /** Where the CP is inside a frame loader. */
  datatype Cp =
    | Waiting
    | Reading(wpos: nat, got: seq<byte>)                   // holds a copy of `cp_in_wpos` and the bytes read so far

  /** The shared variables, both program counters, and the history of the stream:
      `source` is everything ever put into `sbc_queue`, of which the first `taken` bytes have left
      it, and `consumed` is everything the CP has stepped over. */
  datatype State = State(
    cache: seq<byte>, wpos: nat, rpos: nat, mcu: Mcu, cp: Cp,
    source: seq<byte>, taken: nat, consumed: seq<byte>)
  {
    predicate InRange() {
      wpos < |cache| && rpos < |cache| && taken <= |source|
    }

    function Unread(): nat
      requires InRange()
    {
      DataLen(wpos, rpos, |cache|)
    }

    /** Bytes made visible to the CP: those dequeued, and those published but not dequeued yet. */
    function Sent(): nat {
      taken + if mcu.Dequeuing? then mcu.len else 0
    }
  }

  datatype Step =
    | Store(data: seq<byte>)   // the Bluetooth thread appends to `sbc_queue`
    | McuMeasure | McuPeek | McuCopy(n: nat) | McuPublish | McuDequeue
    | CpLook | CpRead(n: nat) | CpConsume(n: nat) | CpGiveUp

  predicate Enabled(s: State, step: Step)
    requires s.InRange()
  {
    match step
    case Store(_) => true
    case McuMeasure => s.mcu.Ready?
    case McuPeek => CanPeek(s)
    case McuCopy(n) => CanCopy(s, n)
    case McuPublish => CanPublish(s)
    case McuDequeue => s.mcu.Dequeuing? && s.taken + s.mcu.len <= |s.source|
    case CpLook => s.cp.Waiting?
    case CpRead(n) => CanRead(s, n)
    case CpConsume(n) => CanConsume(s, n)
    case CpGiveUp => s.cp.Reading?
  }

  /** One step of one core; a step that is not enabled leaves the state alone. A copy may be cut
      into any number of `McuCopy` and `CpRead` steps, down to single bytes. */
  function Apply(s: State, step: Step): (t: State)
    requires s.InRange()
    ensures t.InRange()
  {
    if !Enabled(s, step) then s else
    match step
    case Store(data) => s.(source := s.source + data)
    case McuMeasure => s.(mcu := Measured(s.rpos))
    case McuPeek => Peek(s)
    case McuCopy(n) => Copy(s, n)
    case McuPublish => Publish(s)
    case McuDequeue => s.(taken := s.taken + s.mcu.len, mcu := Ready)
    case CpLook => s.(cp := Reading(s.wpos, []))
    case CpRead(n) => Read(s, n)
    case CpConsume(n) => Consume(s, n)
    case CpGiveUp => s.(cp := Waiting)
  }

  predicate CanPeek(s: State) {
    s.InRange() && s.mcu.Measured? && s.mcu.rpos < |s.cache|
  }

  /** Room by the stale read position, length of `sbc_queue`, and the peek of the smaller. */
  function Peek(s: State): State
    requires CanPeek(s)
  {
    var free := FreeLen(s.wpos, s.mcu.rpos, |s.cache|);
    var queued := |s.source| - s.taken;
    var len := if queued > free then free else queued;
    if free == 0 then s.(mcu := Ready)
    else s.(mcu := Copying(s.mcu.rpos, s.source[s.taken..s.taken + len], 0))
  }

  predicate CanCopy(s: State, n: nat) {
    s.InRange() && s.mcu.Copying? && s.mcu.done + n <= |s.mcu.chunk| <= |s.cache|
  }

  function Copy(s: State, n: nat): State
    requires CanCopy(s, n)
  {
    var at := Advance(s.wpos, s.mcu.done, |s.cache|);
    var piece := s.mcu.chunk[s.mcu.done..s.mcu.done + n];
    s.(cache := RingWrite(s.cache, at, piece), mcu := s.mcu.(done := s.mcu.done + n))
  }

  predicate CanPublish(s: State) {
    s.InRange() && s.mcu.Copying? && s.mcu.done == |s.mcu.chunk| <= |s.cache|
  }

  function Publish(s: State): State
    requires CanPublish(s)
  {
    s.(wpos := Advance(s.wpos, |s.mcu.chunk|, |s.cache|), mcu := Dequeuing(|s.mcu.chunk|))
  }

  predicate CanRead(s: State, n: nat) {
    && s.InRange() && s.cp.Reading? && s.cp.wpos < |s.cache|
    && |s.cp.got| + n <= DataLen(s.cp.wpos, s.rpos, |s.cache|)
  }

  function Read(s: State, n: nat): State
    requires CanRead(s, n)
  {
    var at := Advance(s.rpos, |s.cp.got|, |s.cache|);
    s.(cp := s.cp.(got := s.cp.got + Window(s.cache, at, n)))
  }

  predicate CanConsume(s: State, n: nat) {
    s.InRange() && s.cp.Reading? && n <= |s.cp.got| && n <= |s.cache|
  }

  function Consume(s: State, n: nat): State
    requires CanConsume(s, n)
  {
    s.(rpos := Advance(s.rpos, n, |s.cache|), cp := Waiting, consumed := s.consumed + s.cp.got[..n])
  }

  predicate Init(s: State) {
    && 0 < |s.cache| && s.wpos == 0 && s.rpos == 0 && s.mcu == Ready && s.cp == Waiting
    && s.source == [] && s.taken == 0 && s.consumed == []
  }

  function Exec(s: State, steps: seq<Step>): (t: State)
    requires s.InRange()
    ensures t.InRange()
  {
    if steps == [] then s else Apply(Exec(s, steps[..|steps| - 1]), steps[|steps| - 1])
  }

  /** The unread part of the ring and what each stale snapshot still guarantees. */
  ghost predicate Inv(s: State) {
    && s.InRange()
    && Conserved(s.cache, s.wpos, s.rpos, s.source, s.Sent(), s.consumed)
    && McuInv(s.mcu, s.cache, s.wpos, s.rpos, s.source, s.taken)
    && CpInv(s.cp, |s.cache|, s.wpos, s.rpos, s.source, |s.consumed|)
  }

  /** Consumed bytes, then unread bytes, are exactly the bytes sent. */
  ghost predicate Conserved(cache: seq<byte>, wpos: nat, rpos: nat, source: seq<byte>, sent: nat, consumed: seq<byte>)
    requires wpos < |cache| && rpos < |cache|
  {
    var n := DataLen(wpos, rpos, |cache|);
    && sent <= |source| && |consumed| + n == sent
    && consumed == source[..|consumed|]
    && Window(cache, rpos, n) == source[|consumed|..sent]
  }

  /** The reader has only moved on since the MCU looked, so the MCU underestimates its room. */
  ghost predicate McuInv(mcu: Mcu, cache: seq<byte>, wpos: nat, rpos: nat, source: seq<byte>, taken: nat)
    requires wpos < |cache| && rpos < |cache|
  {
    match mcu
    case Ready => true
    case Measured(r) => r < |cache| && DataLen(wpos, rpos, |cache|) <= DataLen(wpos, r, |cache|)
    case Copying(r, chunk, done) =>
      && r < |cache| && DataLen(wpos, rpos, |cache|) <= DataLen(wpos, r, |cache|)
      && |chunk| <= FreeLen(wpos, r, |cache|) && done <= |chunk|
      && taken + |chunk| <= |source|
      && chunk == source[taken..taken + |chunk|]
      && Window(cache, wpos, done) == chunk[..done]
    case Dequeuing(len) => true
  }

  /** The writer has only moved on since the CP looked, and the bytes copied out are the next ones. */
  ghost predicate CpInv(cp: Cp, size: nat, wpos: nat, rpos: nat, source: seq<byte>, lo: nat)
    requires wpos < size && rpos < size
  {
    cp.Reading? ==>
      && cp.wpos < size
      && |cp.got| <= DataLen(cp.wpos, rpos, size) <= DataLen(wpos, rpos, size)
      && lo + |cp.got| <= |source| && cp.got == source[lo..lo + |cp.got|]
  }

  lemma SliceOfSlice(s: seq<byte>, lo: nat, hi: nat, i: nat, j: nat)
    requires lo <= hi <= |s| && i <= j <= hi - lo
    ensures s[lo..hi][i..j] == s[lo + i..lo + j]
  {
    forall k | 0 <= k < j - i ensures s[lo..hi][i..j][k] == s[lo + i..lo + j][k] {
    }
  }

  lemma SliceJoin(s: seq<byte>, lo: nat, mid: nat, hi: nat)
    requires lo <= mid <= hi <= |s|
    ensures s[lo..mid] + s[mid..hi] == s[lo..hi]
  {
  }

  lemma SliceOfAppend(s: seq<byte>, more: seq<byte>, lo: nat, hi: nat)
    requires lo <= hi <= |s|
    ensures (s + more)[lo..hi] == s[lo..hi]
  {
  }

  lemma StoreKeeps(s: State, data: seq<byte>)
    requires Inv(s)
    ensures Inv(s.(source := s.source + data))
  {
    SliceOfAppend(s.source, data, |s.consumed|, s.Sent());
    SliceOfAppend(s.source, data, 0, |s.consumed|);
    if s.mcu.Copying? {
      SliceOfAppend(s.source, data, s.taken, s.taken + |s.mcu.chunk|);
    }
    if s.cp.Reading? {
      SliceOfAppend(s.source, data, |s.consumed|, |s.consumed| + |s.cp.got|);
    }
  }

  /** A copy lands behind both the unread bytes and the bytes copied before it. */
  lemma CopyKeeps(s: State, n: nat)
    requires Inv(s) && CanCopy(s, n)
    ensures Inv(Copy(s, n))
    ensures Window(Copy(s, n).cache, s.rpos, s.Unread()) == Window(s.cache, s.rpos, s.Unread())
  {
    hide Window, RingWrite, CpInv;
    var size, done := |s.cache|, s.mcu.done;
    var piece := s.mcu.chunk[done..done + n];
    var at := Advance(s.wpos, done, size);
    CopyLeavesUnread(s.cache, s.wpos, s.rpos, done, piece);
    WriteExtendsWindow(s.cache, s.wpos, done, piece);
    SliceJoin(s.mcu.chunk, 0, done, done + n);
  }

  lemma CopyLeavesUnread(cache: seq<byte>, wpos: nat, rpos: nat, done: nat, piece: seq<byte>)
    requires wpos < |cache| && rpos < |cache|
    requires done + |piece| <= FreeLen(wpos, rpos, |cache|)
    ensures var n := DataLen(wpos, rpos, |cache|);
            Window(RingWrite(cache, Advance(wpos, done, |cache|), piece), rpos, n) == Window(cache, rpos, n)
  {
    var n := DataLen(wpos, rpos, |cache|);
    var at := Advance(wpos, done, |cache|);
    var after := RingWrite(cache, at, piece);
    assert at == Advance(rpos, n + done, |cache|);
    WriteExtendsWindow(cache, rpos, n + done, piece);
    WindowPrefix(cache, rpos, n + done, n);
    WindowPrefix(after, rpos, n + done, n);
  }

  lemma PublishKeeps(s: State)
    requires Inv(s) && CanPublish(s)
    ensures Inv(Publish(s))
  {
    var len, size, n := |s.mcu.chunk|, |s.cache|, s.Unread();
    var wpos := Advance(s.wpos, len, size);
    assert DataLen(wpos, s.rpos, size) == n + len;
    WindowJoin(s.cache, s.rpos, n, len);
    SliceJoin(s.source, |s.consumed|, s.taken, s.taken + len);
  }

  lemma WindowJoin(cache: seq<byte>, pos: nat, n: nat, k: nat)
    requires pos < |cache| && n + k <= |cache|
    ensures Window(cache, pos, n + k) == Window(cache, pos, n) + Window(cache, Advance(pos, n, |cache|), k)
  {
  }

  lemma ReadKeeps(s: State, n: nat)
    requires Inv(s) && CanRead(s, n)
    ensures Inv(Read(s, n))
  {
    hide Conserved, McuInv;
    ReadsNext(s, n);
  }

  /** The bytes read are the next ones sent. */
  lemma ReadsNext(s: State, n: nat)
    requires Inv(s) && CanRead(s, n)
    ensures CpInv(Read(s, n).cp, |s.cache|, s.wpos, s.rpos, s.source, |s.consumed|)
  {
    hide McuInv;
    var k, lo := |s.cp.got|, |s.consumed|;
    var at := Advance(s.rpos, k, |s.cache|);
    WindowSuffix(s.cache, s.rpos, s.Unread(), k);
    WindowPrefix(s.cache, at, s.Unread() - k, n);
    SliceOfSlice(s.source, lo, s.Sent(), k, s.Unread());
    SliceOfSlice(s.source, lo + k, s.Sent(), 0, n);
    SliceJoin(s.source, lo, lo + k, lo + k + n);
  }

  lemma ConsumeKeeps(s: State, n: nat)
    requires Inv(s) && CanConsume(s, n)
    ensures Inv(Consume(s, n))
  {
    hide Conserved;
    ConsumeConserves(s, n);
    assert DataLen(s.wpos, Advance(s.rpos, n, |s.cache|), |s.cache|) <= s.Unread();
  }

  lemma ConsumeConserves(s: State, n: nat)
    requires Inv(s) && CanConsume(s, n)
    ensures var t := Consume(s, n);
            && Conserved(t.cache, t.wpos, t.rpos, t.source, t.Sent(), t.consumed)
            && DataLen(t.wpos, t.rpos, |t.cache|) <= s.Unread()
  {
    hide McuInv, Window;
    ConsumesNext(s, n);
    WindowShifts(s.cache, s.wpos, s.rpos, s.source, s.Sent(), s.consumed, n);
  }

  lemma ConsumesNext(s: State, n: nat)
    requires Inv(s) && CanConsume(s, n)
    ensures s.consumed + s.cp.got[..n] == s.source[..|s.consumed| + n]
  {
    hide McuInv, Window;
    var lo := |s.consumed|;
    SliceOfSlice(s.source, lo, lo + |s.cp.got|, 0, n);
    SliceJoin(s.source, 0, lo, lo + n);
  }

  /** What is left unread after `n` bytes is the rest of the window. */
  lemma WindowShifts(cache: seq<byte>, wpos: nat, rpos: nat, source: seq<byte>, sent: nat, consumed: seq<byte>,
                     n: nat)
    requires wpos < |cache| && rpos < |cache| && Conserved(cache, wpos, rpos, source, sent, consumed)
    requires n <= DataLen(wpos, rpos, |cache|)
    ensures var at, lo := Advance(rpos, n, |cache|), |consumed| + n;
            && DataLen(wpos, at, |cache|) == sent - lo && lo <= sent <= |source|
            && Window(cache, at, sent - lo) == source[lo..sent]
  {
    var have := DataLen(wpos, rpos, |cache|);
    WindowSuffix(cache, rpos, have, n);
    hide Window;
    SliceOfSlice(source, |consumed|, sent, n, have);
  }

  lemma PeekKeeps(s: State)
    requires Inv(s) && CanPeek(s)
    ensures Inv(Peek(s))
  {
    hide Conserved, CpInv, RingWrite;
  }

  lemma DequeueKeeps(s: State)
    requires Inv(s) && s.mcu.Dequeuing?
    ensures Inv(s.(taken := s.taken + s.mcu.len, mcu := Ready))
  {
  }

  lemma SnapshotsKeep(s: State)
    requires Inv(s)
    ensures s.mcu.Ready? ==> Inv(s.(mcu := Measured(s.rpos)))
    ensures s.cp.Waiting? ==> Inv(s.(cp := Reading(s.wpos, [])))
    ensures s.cp.Reading? ==> Inv(s.(cp := Waiting))
  {
    assert s.source[|s.consumed|..|s.consumed|] == [];
  }

  lemma StepKeeps(s: State, step: Step)
    requires Inv(s)
    ensures Inv(Apply(s, step))
  {
    if Enabled(s, step) {
      match step
      case Store(data) => StoreKeeps(s, data);
      case McuPeek => PeekKeeps(s);
      case McuCopy(n) => CopyKeeps(s, n);
      case McuPublish => PublishKeeps(s);
      case McuDequeue => DequeueKeeps(s);
      case CpRead(n) => ReadKeeps(s, n);
      case CpConsume(n) => ConsumeKeeps(s, n);
      case McuMeasure => SnapshotsKeep(s);
      case CpLook => SnapshotsKeep(s);
      case CpGiveUp => SnapshotsKeep(s);
    }
  }

  lemma {:induction false} RunKeeps(s: State, steps: seq<Step>)
    requires Inv(s)
    ensures Inv(Exec(s, steps))
  {
    if steps != [] {
      RunKeeps(s, steps[..|steps| - 1]);
      StepKeeps(Exec(s, steps[..|steps| - 1]), steps[|steps| - 1]);
    }
  }

  /** Every interleaving: what the CP consumed is a prefix of what was put into the queue, the ring
      holds exactly the next bytes of it, and never more than `cp_in_size - 1` of them. */
  lemma RingIsFifo(init: State, steps: seq<Step>)
    requires Init(init)
    ensures var s := Exec(init, steps);
            && s.Sent() <= |s.source|
            && s.consumed <= s.source[..s.Sent()]
            && s.consumed + Window(s.cache, s.rpos, s.Unread()) == s.source[..s.Sent()]
            && s.Unread() <= |s.cache| - 1
            && (s.mcu.Copying? ==> s.Unread() + |s.mcu.chunk| <= |s.cache| - 1)
  {
    RunKeeps(init, steps);
    var s := Exec(init, steps);
    assert s.source[..|s.consumed|] + s.source[|s.consumed|..s.Sent()] == s.source[..s.Sent()];
  }

  /** No interleaving lets the MCU overwrite a byte the CP has not stepped over. */
  lemma NoUnreadByteOverwritten(init: State, steps: seq<Step>, step: Step, k: nat)
    requires Init(init) && k < Exec(init, steps).Unread() && !step.CpConsume?
    ensures var s := Exec(init, steps);
            var i := Advance(s.rpos, k, |s.cache|);
            |Apply(s, step).cache| == |s.cache| && Apply(s, step).cache[i] == s.cache[i]
  {
    RunKeeps(init, steps);
    var s := Exec(init, steps);
    match step {
      case McuCopy(n) =>
        if Enabled(s, step) {
          CopyKeeps(s, n);
          assert Window(Copy(s, n).cache, s.rpos, s.Unread())[k] == Window(s.cache, s.rpos, s.Unread())[k];
        }
      case _ =>
    }
  }

  // ---------------------------------------------------------------------------------------------
  // The code of the two cores
  // ---------------------------------------------------------------------------------------------

  /** The shared variables as the firmware keeps them, with `sbc_queue` as a list of bytes. */
  class InCache {
    const cache: array<byte>
    var wpos: nat
    var rpos: nat
    var queue: seq<byte>

    ghost predicate Valid()
      reads this
    {
      wpos < cache.Length && rpos < cache.Length
    }

    constructor (size: nat)
      requires 0 < size
      ensures Valid() && fresh(cache) && cache.Length == size
      ensures wpos == 0 && rpos == 0 && queue == []
    {
      cache := new byte[size](_ => 0);
      wpos, rpos, queue := 0, 0, [];
    }

    /** `memcpy` into the ring, in front of its end. */
    method Put(at: nat, data: seq<byte>)
      requires at < cache.Length && at + |data| <= cache.Length
      modifies cache
      ensures cache[..] == RingWrite(old(cache[..]), at, data)
    {
      forall i | 0 <= i < |data| {
        cache[at + i] := data[i];
      }
    }

    /** The copying part of `mcu_load_a2dp_encoded_data`: the two pieces that the peek returned go
        into the ring from `start`, whatever their split and wherever the wrap falls. */
    method CopyIn(start: nat, inRpos: nat, e1: seq<byte>, e2: seq<byte>) returns (inWpos: nat)
      requires start < cache.Length && inRpos < cache.Length
      requires |e1| + |e2| <= FreeLen(start, inRpos, cache.Length)
      modifies cache
      ensures cache[..] == RingWrite(old(cache[..]), start, e1 + e2)
      ensures inWpos == Advance(start, |e1| + |e2|, cache.Length)
    {
      ghost var before := cache[..];
      inWpos := start;
      assert cache[..] == RingWrite(before, start, []);
      if inWpos < inRpos {
        if |e1| > 0 {
          Put(inWpos, e1);
          inWpos := inWpos + |e1|;
        }
        assert cache[..] == RingWrite(before, start, e1);
        if |e2| > 0 {
          Put(inWpos, e2);
          inWpos := inWpos + |e2|;
        }
        WriteInPieces(before, start, e1, e2);
        assert e2 == [] ==> e1 + e2 == e1;
      } else {
        var freeLen := cache.Length - inWpos;
        if |e1| > 0 {
          inWpos := PutWrapped(inWpos, freeLen, e1);
          freeLen := if inWpos < inRpos then inRpos - inWpos - 1 else cache.Length - inWpos;
        }
        assert cache[..] == RingWrite(before, start, e1);
        if |e2| > 0 {
          inWpos := PutWrapped(inWpos, freeLen, e2);
        }
        WriteInPieces(before, start, e1, e2);
        assert e2 == [] ==> e1 + e2 == e1;
      }
    }

    /** One peeked piece: as much as fits before `freeLen` runs out, then the rest from there on. */
    method PutWrapped(at: nat, freeLen: nat, e: seq<byte>) returns (inWpos: nat)
      requires at < cache.Length && |e| <= cache.Length
      requires at + freeLen <= cache.Length
      requires at + freeLen == cache.Length || |e| <= freeLen
      modifies cache
      ensures cache[..] == RingWrite(old(cache[..]), at, e)
      ensures inWpos == Advance(at, |e|, cache.Length)
    {
      ghost var before := cache[..];
      var first := if freeLen > |e| then |e| else freeLen;
      Put(at, e[..first]);
      inWpos := Advance(at, first, cache.Length);
      if |e| - first > 0 {
        Put(inWpos, e[first..]);
        inWpos := Advance(inWpos, |e| - first, cache.Length);
        WriteInPieces(before, at, e[..first], e[first..]);
        assert e[..first] + e[first..] == e;
      } else {
        assert e[..first] == e;
      }
    }

    /** `mcu_load_a2dp_encoded_data`: moves as much of `sbc_queue` as there is room for. `split` is
        where the peek happens to cut the bytes in two. */
    method LoadEncodedData(split: nat)
      requires Valid()
      modifies this, cache
      ensures Valid() && rpos == old(rpos)
      ensures var free := FreeLen(old(wpos), old(rpos), cache.Length);
              var n := if |old(queue)| > free then free else |old(queue)|;
              && cache[..] == RingWrite(old(cache[..]), old(wpos), old(queue)[..n])
              && wpos == Advance(old(wpos), n, cache.Length)
              && queue == old(queue)[n..]
    {
      var inWpos, inRpos := wpos, rpos;
      var freeLen := if inWpos < inRpos then inRpos - inWpos - 1 else cache.Length - inWpos + inRpos - 1;
      if freeLen == 0 {
        return;
      }
      var size := |queue|;
      if size > freeLen {
        size := freeLen;
      }
      var len1 := if split > size then size else split;
      var e1, e2 := queue[..len1], queue[len1..size];
      assert e1 + e2 == queue[..size];
      inWpos := CopyIn(inWpos, inRpos, e1, e2);
      wpos := inWpos;
      queue := queue[size..];
    }

    /** `cp_get_in_cache_data`, by the CP's copies of the two indices. */
    method GetData(len: nat, inWpos: nat, inRpos: nat) returns (data: seq<byte>)
      requires inWpos < cache.Length && inRpos < cache.Length
      requires len <= DataLen(inWpos, inRpos, cache.Length)
      ensures data == Window(cache[..], inRpos, len)
    {
      if inWpos > inRpos || cache.Length >= inRpos + len {
        data := cache[inRpos..inRpos + len];
      } else {
        var copyLen := cache.Length - inRpos;
        data := cache[inRpos..inRpos + copyLen] + cache[..len - copyLen];
      }
    }
  }

  /** One whole load by the MCU: what `LoadEncodedData` does to the ring and the queue. */
  function WholeLoad(s: State): State
    requires s.InRange()
  {
    var free := FreeLen(s.wpos, s.rpos, |s.cache|);
    var queue := s.source[s.taken..];
    var n := if |queue| > free then free else |queue|;
    s.(cache := RingWrite(s.cache, s.wpos, queue[..n]), wpos := Advance(s.wpos, n, |s.cache|), taken := s.taken + n)
  }

  /** The MCU code run without the CP in between is the interleaved model's load, step by step. */
  lemma LoadIsSteps(s: State, n: nat)
    requires s.InRange() && s.mcu == Ready && FreeLen(s.wpos, s.rpos, |s.cache|) > 0
    requires n == WholeLoad(s).taken - s.taken
    ensures Apply(Apply(Apply(Apply(Apply(s, McuMeasure), McuPeek), McuCopy(n)), McuPublish), McuDequeue)
            == WholeLoad(s)
  {
    hide RingWrite, Advance;
    var queue := s.source[s.taken..];
    var peeked := s.(mcu := Copying(s.rpos, queue[..n], 0));
    assert s.source[s.taken..s.taken + n] == queue[..n];
    assert Apply(s, McuMeasure) == s.(mcu := Measured(s.rpos));
    assert Apply(s.(mcu := Measured(s.rpos)), McuPeek) == peeked;
    assert queue[..n][0..n] == queue[..n];
    var copied := peeked.(cache := RingWrite(s.cache, s.wpos, queue[..n]), mcu := Copying(s.rpos, queue[..n], n));
    assert Apply(peeked, McuCopy(n)) == copied;
    var published := copied.(wpos := Advance(s.wpos, n, |s.cache|), mcu := Dequeuing(n));
    assert Apply(copied, McuPublish) == published;
  }
}
