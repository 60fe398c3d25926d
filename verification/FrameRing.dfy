/**
 * The 32-slot video frame ring: slot descriptors whose stage buffers are handed on by
 * moving pointers, the three buffer pools, and the central release pass.
 *
 * Each operation is a function on the value `Ring`; the class in FrameRingClass.dfy
 * performs the same operations in place on its slot array.  All of them run under the
 * ring lock, so each is one atomic step of the pipeline.
 */
module FrameRingModel {
  import opened Common

  const RING_N: nat := 32

  /** The three pools, named as the `which` argument of the pool operations. */
  datatype Kind = Rgb | Nv12 | Jpeg

  datatype PerKind<T> = PerKind(rgb: T, nv12: T, jpeg: T) {
    function At(k: Kind): T {
      match k
      case Rgb => rgb
      case Nv12 => nv12
      case Jpeg => jpeg
    }

    function With(k: Kind, v: T): PerKind<T> {
      match k
      case Rgb => PerKind(v, nv12, jpeg)
      case Nv12 => PerKind(rgb, v, jpeg)
      case Jpeg => PerKind(rgb, nv12, v)
    }
  }

  /** A heap block: its identity and the capacity that travels with the pointer. */
  datatype Buf = Buf(id: nat, cap: nat)

  /** The raw stage: a driver buffer (released by re-queueing it) or a heap block. */
  datatype Raw = Mmap(vbuf: nat) | Heap(block: nat)

  /** A slot descriptor; `frame` is the sequence number of the frame it holds, 0 for none. */
  datatype Slot = Slot(
    frame: nat, w: int, h: int, fmt: int,
    raw: Option<Raw>, claims: nat,
    rgb: Option<Buf>, nv12: Option<Buf>, jpeg: Option<Buf>,
    inferDone: bool, rgbDone: bool, displayDone: bool, encodeDone: bool)
  {
    function Stage(k: Kind): Option<Buf> {
      match k
      case Rgb => rgb
      case Nv12 => nv12
      case Jpeg => jpeg
    }
  }

  const EMPTY_SLOT: Slot := Slot(0, 0, 0, 0, None, 0, None, None, None, false, false, false, false)

  datatype Control = Control(
    produceSeq: nat, displaySeq: nat,
    aiActive: bool, recActive: bool, quiescing: bool,
    captureDropped: nat, driverDropped: nat, inferDropped: nat,
    renderSkipped: nat, encodeSkipped: nat)

  /**
   * The pools, and the books kept about the world outside the ring: how many pool nodes were
   * requested, which blocks were ever allocated or freed, and which raw buffers were given
   * back (driver buffers to the driver's queue, heap blocks to the heap).
   */
  datatype Store = Store(
    pools: PerKind<seq<Buf>>, puts: nat,
    alloc: seq<Block>, freed: PerKind<multiset<Buf>>,
    returned: multiset<Raw>)

  /** A stage-buffer allocation; its position in `alloc` is the buffer's identity. */
  datatype Block = Block(kind: Kind, cap: nat)

  /** 1 if b was allocated as a buffer of kind k with that capacity, 0 otherwise. */
  function Allocated(st: Store, k: Kind, b: Buf): nat {
    if b.id < |st.alloc| && st.alloc[b.id] == Block(k, b.cap) then 1 else 0
  }

  datatype Ring = Ring(slots: seq<Slot>, ctl: Control, store: Store)

  function SlotIndex(q: nat): nat { q % RING_N }

  // ---------------------------------------------------------------- buffer pools

  /** First pool entry with enough capacity; |pool| if there is none. */
  function FirstFit(pool: seq<Buf>, minCap: nat): (i: nat)
    ensures i <= |pool|
    ensures i < |pool| ==> pool[i].cap >= minCap
    ensures forall j :: 0 <= j < i ==> pool[j].cap < minCap
  {
    if pool == [] then 0
    else if pool[0].cap >= minCap then 0
    else 1 + FirstFit(pool[1..], minCap)
  }

  function Take(st: Store, k: Kind, minCap: nat, mallocOk: bool): (Store, Option<Buf>) {
    var pool := st.pools.At(k);
    var i := FirstFit(pool, minCap);
    if i < |pool| then
      (st.(pools := st.pools.With(k, pool[..i] + pool[i + 1..])), Some(pool[i]))
    else if mallocOk then
      (st.(alloc := st.alloc + [Block(k, minCap)]), Some(Buf(|st.alloc|, minCap)))
    else
      (st, None)
  }

  /**
   * Returning a buffer needs a list node; `env` says of the n-th such allocation whether it
   * succeeds.  When it fails the buffer itself is freed instead.
   */
  function Put(st: Store, k: Kind, b: Option<Buf>, env: nat -> bool): Store {
    if b.None? then st
    else if env(st.puts) then
      st.(puts := st.puts + 1, pools := st.pools.With(k, [b.value] + st.pools.At(k)))
    else
      st.(puts := st.puts + 1, freed := st.freed.With(k, st.freed.At(k) + multiset{b.value}))
  }

  /** How often buffer b of kind k is in the pool or among the freed blocks. */
  function Shelved(st: Store, k: Kind, b: Buf): nat {
    multiset(st.pools.At(k))[b] + st.freed.At(k)[b]
  }

  lemma PutShelved(st: Store, k: Kind, o: Option<Buf>, env: nat -> bool, k': Kind, b: Buf)
    ensures var st' := Put(st, k, o, env);
            && Shelved(st', k', b) == Shelved(st, k', b) + (if k == k' then Is(o, b) else 0)
            && st'.alloc == st.alloc && st'.returned == st.returned
  {
    if o.Some? && k == k' {
      assert multiset([o.value] + st.pools.At(k)) == multiset{o.value} + multiset(st.pools.At(k));
    }
  }

  /**
   * A buffer taken has the capacity asked for, and is the one thing that left the shelf or
   * came new from the heap; only a failed allocation yields none.
   */
  lemma TakeShelved(st: Store, k: Kind, minCap: nat, mallocOk: bool, k': Kind, b: Buf)
    ensures var (st', out) := Take(st, k, minCap, mallocOk);
            && Shelved(st', k', b) + Allocated(st, k', b) + (if k == k' then Is(out, b) else 0)
               == Shelved(st, k', b) + Allocated(st', k', b)
            && (out.Some? ==> out.value.cap >= minCap)
            && (out.None? ==> !mallocOk)
            && st'.returned == st.returned && st'.puts == st.puts
  {
    var pool := st.pools.At(k);
    var i := FirstFit(pool, minCap);
    if i < |pool| {
      assert pool == pool[..i] + ([pool[i]] + pool[i + 1..]);
      assert multiset(pool) == multiset(pool[..i]) + (multiset{pool[i]} + multiset(pool[i + 1..]));
      assert multiset(pool[..i] + pool[i + 1..]) == multiset(pool[..i]) + multiset(pool[i + 1..]);
    }
  }

  // ---------------------------------------------------------------- release and maintenance

  predicate RawReleasable(c: Control, s: Slot) {
    && s.raw.Some? && s.frame != c.produceSeq && s.claims == 0
    && (if c.aiActive then s.inferDone else s.encodeDone || !c.recActive)
  }

  predicate StageReleasable(c: Control, s: Slot, k: Kind) {
    && s.Stage(k).Some?
    && match k
       case Rgb => s.rgbDone && s.frame <= c.displaySeq
       case Jpeg => s.frame != c.displaySeq
       case Nv12 => s.frame != c.displaySeq && (s.encodeDone || !c.recActive)
  }

  /** What the pass leaves in one stage of a slot. */
  function Kept(c: Control, s: Slot, k: Kind): Option<Buf> {
    if StageReleasable(c, s, k) then None else s.Stage(k)
  }

  /** What one visit of the pass leaves of a slot: a function of the slot and the modes alone. */
  function Cleaned(c: Control, s: Slot): Slot {
    if s.frame == 0 then s
    else s.(
      raw := if RawReleasable(c, s) then None else s.raw,
      rgb := Kept(c, s, Rgb), jpeg := Kept(c, s, Jpeg), nv12 := Kept(c, s, Nv12))
  }

  function CollectRaw(c: Control, s: Slot, st: Store): Store {
    if RawReleasable(c, s) then st.(returned := st.returned + multiset{s.raw.value}) else st
  }

  function CollectStage(c: Control, s: Slot, st: Store, k: Kind, env: nat -> bool): Store {
    if StageReleasable(c, s, k) then Put(st, k, s.Stage(k), env) else st
  }

  /** Where the released buffers of one slot go. */
  function Collected(c: Control, s: Slot, st: Store, env: nat -> bool): Store {
    if s.frame == 0 then st
    else
      var st1 := CollectStage(c, s, CollectRaw(c, s, st), Rgb, env);
      var st2 := CollectStage(c, s, st1, Jpeg, env);
      CollectStage(c, s, st2, Nv12, env)
  }

  function MaintainAt(r: Ring, i: nat, env: nat -> bool): Ring
    requires i < |r.slots|
  {
    var s := r.slots[i];
    Ring(r.slots[i := Cleaned(r.ctl, s)], r.ctl, Collected(r.ctl, s, r.store, env))
  }

  function MaintainUpTo(r: Ring, n: nat, env: nat -> bool): (r': Ring)
    requires n <= |r.slots|
    ensures |r'.slots| == |r.slots| && r'.ctl == r.ctl
    ensures forall i :: 0 <= i < n ==> r'.slots[i] == Cleaned(r.ctl, r.slots[i])
    ensures forall i :: n <= i < |r.slots| ==> r'.slots[i] == r.slots[i]
  {
    if n == 0 then r else MaintainAt(MaintainUpTo(r, n - 1, env), n - 1, env)
  }

  /** The release pass over all slots. */
  function Maintain(r: Ring, env: nat -> bool): (r': Ring)
    ensures |r'.slots| == |r.slots| && r'.ctl == r.ctl
    ensures forall i :: 0 <= i < |r.slots| ==> r'.slots[i] == Cleaned(r.ctl, r.slots[i])
  {
    MaintainUpTo(r, |r.slots|, env)
  }

  /** No slot holds anything the pass would release. */
  ghost predicate FixedPoint(r: Ring) {
    forall i :: 0 <= i < |r.slots| ==> Cleaned(r.ctl, r.slots[i]) == r.slots[i]
  }

  // ---------------------------------------------------------------- accounting

  function Stages(slots: seq<Slot>, k: Kind): (xs: seq<Option<Buf>>)
    ensures |xs| == |slots|
    ensures forall i :: 0 <= i < |slots| ==> xs[i] == slots[i].Stage(k)
  {
    seq(|slots|, i requires 0 <= i < |slots| => slots[i].Stage(k))
  }

  function Raws(slots: seq<Slot>): (xs: seq<Option<Raw>>)
    ensures |xs| == |slots|
    ensures forall i :: 0 <= i < |slots| ==> xs[i] == slots[i].raw
  {
    seq(|slots|, i requires 0 <= i < |slots| => slots[i].raw)
  }

  /** How often buffer b of kind k is in a slot, in the pool, or freed. */
  function Account(r: Ring, k: Kind, b: Buf): nat {
    Count(Stages(r.slots, k), b) + Shelved(r.store, k, b)
  }

  /** How often a raw buffer is in a slot or given back. */
  function RawAccount(r: Ring, raw: Raw): nat {
    Count(Raws(r.slots), raw) + r.store.returned[raw]
  }

  lemma SlotUpdateCounts(slots: seq<Slot>, i: nat, s: Slot, k: Kind, b: Buf, raw: Raw)
    requires i < |slots|
    ensures Count(Stages(slots[i := s], k), b) + Is(slots[i].Stage(k), b)
         == Count(Stages(slots, k), b) + Is(s.Stage(k), b)
    ensures Count(Raws(slots[i := s]), raw) + Is(slots[i].raw, raw) == Count(Raws(slots), raw) + Is(s.raw, raw)
  {
    assert Stages(slots[i := s], k) == Stages(slots, k)[i := s.Stage(k)];
    CountUpdate(Stages(slots, k), i, s.Stage(k), b);
    assert Raws(slots[i := s]) == Raws(slots)[i := s.raw];
    CountUpdate(Raws(slots), i, s.raw, raw);
  }

  lemma CollectStageShelved(c: Control, s: Slot, st: Store, k: Kind, env: nat -> bool, k': Kind, b: Buf)
    ensures var st' := CollectStage(c, s, st, k, env);
            && Shelved(st', k', b) == Shelved(st, k', b)
               + (if k == k' then Is(s.Stage(k), b) - Is(Kept(c, s, k), b) else 0)
            && st'.alloc == st.alloc && st'.returned == st.returned
  {
    PutShelved(st, k, s.Stage(k), env, k', b);
  }

  lemma CollectedShelved(c: Control, s: Slot, st: Store, env: nat -> bool, k: Kind, b: Buf, raw: Raw)
    ensures var st' := Collected(c, s, st, env);
            && Shelved(st', k, b) + Is(Cleaned(c, s).Stage(k), b) == Shelved(st, k, b) + Is(s.Stage(k), b)
            && st'.returned[raw] + Is(Cleaned(c, s).raw, raw) == st.returned[raw] + Is(s.raw, raw)
            && st'.alloc == st.alloc
  {
    if s.frame != 0 {
      var st0 := CollectRaw(c, s, st);
      var st1 := CollectStage(c, s, st0, Rgb, env);
      var st2 := CollectStage(c, s, st1, Jpeg, env);
      CollectStageShelved(c, s, st0, Rgb, env, k, b);
      CollectStageShelved(c, s, st1, Jpeg, env, k, b);
      CollectStageShelved(c, s, st2, Nv12, env, k, b);
    }
  }

  /** No copy of buffer b entered or left the ring's books, and nothing was allocated. */
  ghost predicate BufBalanced(r: Ring, r': Ring, k: Kind, b: Buf) {
    && Account(r', k, b) == Account(r, k, b)
    && r'.store.alloc == r.store.alloc
  }

  /** The same for buffer b and for the raw buffers. */
  ghost predicate Balanced(r: Ring, r': Ring, k: Kind, b: Buf, raw: Raw) {
    BufBalanced(r, r', k, b) && RawAccount(r', raw) == RawAccount(r, raw)
  }

  lemma MaintainAtBalanced(r: Ring, i: nat, env: nat -> bool, k: Kind, b: Buf, raw: Raw)
    requires i < |r.slots|
    ensures Balanced(r, MaintainAt(r, i, env), k, b, raw)
  {
    CollectedShelved(r.ctl, r.slots[i], r.store, env, k, b, raw);
    SlotUpdateCounts(r.slots, i, Cleaned(r.ctl, r.slots[i]), k, b, raw);
  }

  lemma BalancedReflexive(r: Ring, k: Kind, b: Buf, raw: Raw)
    ensures Balanced(r, r, k, b, raw)
  {
  }

  lemma BalancedTransitive(r: Ring, p: Ring, q: Ring, k: Kind, b: Buf, raw: Raw)
    requires Balanced(r, p, k, b, raw) && Balanced(p, q, k, b, raw)
    ensures Balanced(r, q, k, b, raw)
  {
  }

  lemma {:induction false} MaintainUpToBalanced(r: Ring, n: nat, env: nat -> bool, k: Kind, b: Buf, raw: Raw)
    requires n <= |r.slots|
    ensures Balanced(r, MaintainUpTo(r, n, env), k, b, raw)
  {
    hide Balanced, MaintainAt;
    if n == 0 {
      BalancedReflexive(r, k, b, raw);
    } else {
      var p := MaintainUpTo(r, n - 1, env);
      MaintainUpToBalanced(r, n - 1, env, k, b, raw);
      MaintainAtBalanced(p, n - 1, env, k, b, raw);
      BalancedTransitive(r, p, MaintainAt(p, n - 1, env), k, b, raw);
    }
  }

  lemma CleanedAtRest(r: Ring, env: nat -> bool)
    ensures FixedPoint(Maintain(r, env))
  {
    hide MaintainUpTo;
  }

  /**
   * The pass loses nothing: each buffer it detaches is in a pool, freed, or back with the
   * driver, and what it leaves is a fixed point.
   */
  lemma MaintainEffect(r: Ring, env: nat -> bool, k: Kind, b: Buf, raw: Raw)
    ensures Balanced(r, Maintain(r, env), k, b, raw)
    ensures FixedPoint(Maintain(r, env))
  {
    MaintainUpToBalanced(r, |r.slots|, env, k, b, raw);
    CleanedAtRest(r, env);
    hide Balanced, FixedPoint, MaintainUpTo;
  }

  /** A ring at rest is left alone, pools and books included. */
  lemma {:induction false} FixedPointUnchanged(r: Ring, n: nat, env: nat -> bool)
    requires FixedPoint(r) && n <= |r.slots|
    ensures MaintainUpTo(r, n, env) == r
  {
    if n > 0 {
      FixedPointUnchanged(r, n - 1, env);
      var s := r.slots[n - 1];
      assert Cleaned(r.ctl, s) == s;
      assert r.slots[n - 1 := s] == r.slots;
    }
  }

  /** Running the pass twice does nothing more than running it once. */
  lemma MaintainIdempotent(r: Ring, env: nat -> bool)
    ensures Maintain(Maintain(r, env), env) == Maintain(r, env)
  {
    MaintainEffect(r, env, Rgb, Buf(0, 0), Heap(0));
    FixedPointUnchanged(Maintain(r, env), |r.slots|, env);
  }
}
