/** The runtime's pool recycler (yakka/Runtime.c): a circular array of cleared pools with a
    moving position, and the bounded last-in-first-out stack that it implements. */
module Pools {
  import opened Options

  /** A memory pool, known only by its identity. */
  type Pool = nat

  // ---------------------------------------------------------------------------------------
  // The abstract recycler
  // ---------------------------------------------------------------------------------------

  /** What the recycler holds: `stack` lists the buffered pools, oldest first; `made` counts the
      pools ever made (pool `p` has been made when `p < made`); `destroyed` lists the pools
      handed back to the allocator, in order. */
  datatype PoolState = PoolState(stack: seq<Pool>, capacity: nat, made: nat, destroyed: seq<Pool>)

  /** The last `n` elements of `s`, or all of `s` when it is shorter. */
  function Newest<T>(s: seq<T>, n: nat): seq<T> {
    if |s| <= n then s else s[|s| - n..]
  }

  /** The elements of `s` that `Newest(s, n)` leaves behind. */
  function Overflow<T>(s: seq<T>, n: nat): seq<T> {
    if |s| <= n then [] else s[..|s| - n]
  }

  /** The pool handed out by the next request: the newest buffered one, else a fresh one. */
  function NextPool(ps: PoolState): Pool {
    if ps.stack == [] then ps.made else ps.stack[|ps.stack| - 1]
  }

  /** The recycler after handing out `NextPool`. */
  function Draw(ps: PoolState): PoolState {
    if ps.stack == [] then ps.(made := ps.made + 1) else ps.(stack := ps.stack[..|ps.stack| - 1])
  }

  /** The recycler after taking back pool `p`: `p` becomes the newest buffered pool and whatever no
      longer fits is destroyed. */
  function Recycle(ps: PoolState, p: Pool): PoolState {
    ps.(stack := Newest(ps.stack + [p], ps.capacity),
        destroyed := ps.destroyed + Overflow(ps.stack + [p], ps.capacity))
  }

  /** Every pool out of use, in the order it went out of use: destroyed ones, then buffered ones. */
  function Idle(ps: PoolState): seq<Pool> {
    ps.destroyed + ps.stack
  }

  lemma {:induction false} RecycleIdles(ps: PoolState, p: Pool)
    requires |ps.stack| <= ps.capacity
    ensures Idle(Recycle(ps, p)) == Idle(ps) + [p]
    ensures |Recycle(ps, p).stack| <= ps.capacity && Recycle(ps, p).made == ps.made
            && Recycle(ps, p).capacity == ps.capacity
  {}

  lemma DrawUnidles(ps: PoolState)
    ensures ps.stack == [] ==> Idle(Draw(ps)) == Idle(ps)
    ensures ps.stack != [] ==> Idle(ps) == Idle(Draw(ps)) + [NextPool(ps)]
  {}

  /** Taking back several pools, one after the other. */
  function RecycleAll(ps: PoolState, back: seq<Pool>): PoolState
    decreases |back|
  {
    if back == [] then ps else RecycleAll(Recycle(ps, back[0]), back[1..])
  }

  /** Cutting to the newest `n` part way does not change what is kept in the end. */
  lemma NewestInStages<T>(a: seq<T>, b: seq<T>, n: nat)
    ensures Newest(Newest(a, n) + b, n) == Newest(a + b, n)
  {}

  /** Giving back a series of pools keeps the newest `capacity` of everything offered; the pools that
      no longer fit are destroyed oldest first, so that the idle pools simply gain the series. */
  lemma {:induction false} RecycleAllKeepsNewest(ps: PoolState, back: seq<Pool>)
    requires |ps.stack| <= ps.capacity
    ensures RecycleAll(ps, back).stack == Newest(ps.stack + back, ps.capacity)
    ensures Idle(RecycleAll(ps, back)) == Idle(ps) + back
    ensures RecycleAll(ps, back).made == ps.made && RecycleAll(ps, back).capacity == ps.capacity
    decreases |back|
  {
    if back == [] {
      assert ps.stack + back == ps.stack;
    } else {
      var one := ps.stack + [back[0]];
      RecycleIdles(ps, back[0]);
      assert Recycle(ps, back[0]).stack == Newest(one, ps.capacity);
      hide Newest, Overflow, Idle, Recycle;
      RecycleAllKeepsNewest(Recycle(ps, back[0]), back[1..]);
      NewestInStages(one, back[1..], ps.capacity);
      assert ps.stack + back == one + back[1..];
      assert Idle(ps) + back == (Idle(ps) + [back[0]]) + back[1..];
    }
  }

  /** A pool given back is the next one handed out, whenever the buffer can hold anything, and
      handing it out again leaves the buffer with what it held before, save for an overflow. */
  lemma RecycleThenDraw(ps: PoolState, p: Pool)
    requires |ps.stack| <= ps.capacity
    ensures ps.capacity > 0 ==>
              && NextPool(Recycle(ps, p)) == p
              && Draw(Recycle(ps, p)).stack == Newest(ps.stack, ps.capacity - 1)
    ensures ps.capacity == 0 ==> Recycle(ps, p) == ps.(destroyed := ps.destroyed + [p])
  {}

  // ---------------------------------------------------------------------------------------
  // The circular array
  // ---------------------------------------------------------------------------------------

  /** The array index `k` places behind `pos`, going round a ring of `n` slots. */
  function Behind(pos: int, k: nat, n: nat): int {
    if k <= pos then pos - k else pos - k + n
  }

  /** The array `buf` with position `pos` holds exactly `stack`: going back from `pos`, first come
      the stacked pools, newest first, and every remaining slot is empty. */
  ghost predicate Represents(buf: seq<Option<Pool>>, pos: int, stack: seq<Pool>) {
    && 0 <= pos < |buf|
    && |stack| <= |buf|
    && (forall k: nat :: k < |stack| ==>
          0 <= Behind(pos, k, |buf|) < |buf| && buf[Behind(pos, k, |buf|)] == Some(stack[|stack| - 1 - k]))
    && (forall k: nat :: |stack| <= k < |buf| ==>
          0 <= Behind(pos, k, |buf|) < |buf| && buf[Behind(pos, k, |buf|)] == None)
  }

  /** A slot is empty exactly when it lies deeper than the stack. */
  lemma EmptyBeyond(buf: seq<Option<Pool>>, pos: int, stack: seq<Pool>, k: nat)
    requires Represents(buf, pos, stack) && k < |buf|
    ensures 0 <= Behind(pos, k, |buf|) < |buf|
    ensures buf[Behind(pos, k, |buf|)] == if k < |stack| then Some(stack[|stack| - 1 - k]) else None
  {}

  /** One array holds one stack. */
  lemma RepresentsOne(buf: seq<Option<Pool>>, pos: int, s: seq<Pool>, t: seq<Pool>)
    requires Represents(buf, pos, s) && Represents(buf, pos, t)
    ensures s == t
  {
    var k := if |s| < |t| then |s| else |t|;
    if k < |buf| {
      EmptyBeyond(buf, pos, s, k);
      EmptyBeyond(buf, pos, t, k);
    }
    assert |s| == |t|;
    forall i | 0 <= i < |s|
      ensures s[i] == t[i]
    {
      EmptyBeyond(buf, pos, s, |s| - 1 - i);
      EmptyBeyond(buf, pos, t, |s| - 1 - i);
    }
  }

  /** Taking the slot at `pos` and stepping back, round the end when needed. */
  function StepBack(pos: int, n: nat): int {
    if pos - 1 < 0 then n - 1 else pos - 1
  }

  /** Stepping forward, back to the start when the end is reached. */
  function StepOn(pos: int, n: nat): int {
    if pos + 1 < n then pos + 1 else 0
  }

  /** Emptying the slot at the position and stepping back pops the stack; on an empty stack it
      only moves the position. */
  lemma TakePops(buf: seq<Option<Pool>>, pos: int, stack: seq<Pool>)
    requires Represents(buf, pos, stack)
    ensures buf[pos] == if stack == [] then None else Some(stack[|stack| - 1])
    ensures Represents(buf[pos := None], StepBack(pos, |buf|),
                       if stack == [] then [] else stack[..|stack| - 1])
  {
    var n := |buf|;
    var back := StepBack(pos, n);
    assert Behind(pos, 0, n) == pos;
    forall k: nat | k < n
      ensures Behind(back, k, n) == if k + 1 < n then Behind(pos, k + 1, n) else pos
    {}
  }

  /** Stepping on and writing there pushes; the value overwritten is the oldest pool exactly when
      the array was full. */
  lemma StorePushes(buf: seq<Option<Pool>>, pos: int, stack: seq<Pool>, p: Pool)
    requires Represents(buf, pos, stack)
    ensures 0 <= StepOn(pos, |buf|) < |buf|
    ensures buf[StepOn(pos, |buf|)] == if |stack| == |buf| then Some(stack[0]) else None
    ensures Represents(buf[StepOn(pos, |buf|) := Some(p)], StepOn(pos, |buf|),
                       Newest(stack + [p], |buf|))
  {
    var n := |buf|;
    var on := StepOn(pos, n);
    assert Behind(pos, n - 1, n) == on;
    forall k: nat | k < n
      ensures Behind(on, k, n) == if k == 0 then on else Behind(pos, k - 1, n)
    {}
    var kept := Newest(stack + [p], n);
    forall k: nat | k < |kept|
      ensures buf[on := Some(p)][Behind(on, k, n)] == Some(kept[|kept| - 1 - k])
    {
      if k > 0 {
        assert buf[Behind(pos, k - 1, n)] == Some(stack[|stack| - 1 - (k - 1)]);
      }
    }
  }

  // ---------------------------------------------------------------------------------------
  // Any sequence of requests
  // ---------------------------------------------------------------------------------------

  datatype Request = Take | GiveBack(pool: Pool)

  /** The array with its position, and what the requests so far have led to: pools made, pools destroyed. */
  datatype Ring = Ring(buf: seq<Option<Pool>>, pos: int, made: nat, destroyed: seq<Pool>)

  /** One request, as the code serves it with a buffer of at least one slot: the new ring, and the pool handed out. */
  function Serve(r: Ring, request: Request): (Ring, Option<Pool>)
    requires 0 <= r.pos < |r.buf|
  {
    match request
    case Take =>
      var found := r.buf[r.pos];
      var back := Ring(r.buf[r.pos := None], StepBack(r.pos, |r.buf|), r.made + (if found.None? then 1 else 0),
                       r.destroyed);
      (back, Some(if found.None? then r.made else found.value))
    case GiveBack(pool) =>
      var on := StepOn(r.pos, |r.buf|);
      var oldest := r.buf[on];
      (Ring(r.buf[on := Some(pool)], on, r.made, r.destroyed + (if oldest.Some? then [oldest.value] else [])), None)
  }

  /** The same request to the bounded stack. */
  function Ask(ps: PoolState, request: Request): (PoolState, Option<Pool>) {
    match request
    case Take => (Draw(ps), Some(NextPool(ps)))
    case GiveBack(pool) => (Recycle(ps, pool), None)
  }

  /** The ring stands for the stack. */
  ghost predicate Stands(r: Ring, ps: PoolState) {
    Represents(r.buf, r.pos, ps.stack) && |r.buf| == ps.capacity && r.made == ps.made && r.destroyed == ps.destroyed
  }

  lemma ServeRefines(r: Ring, ps: PoolState, request: Request)
    requires Stands(r, ps)
    ensures Stands(Serve(r, request).0, Ask(ps, request).0) && Serve(r, request).1 == Ask(ps, request).1
  {
    match request
    case Take => TakePops(r.buf, r.pos, ps.stack);
    case GiveBack(pool) =>
      StorePushes(r.buf, r.pos, ps.stack, pool);
      assert Overflow(ps.stack + [pool], ps.capacity) == if |ps.stack| == |r.buf| then [ps.stack[0]] else [];
  }

  /** The answers to a sequence of requests, from the ring and from the stack. */
  ghost function ServeAll(r: Ring, requests: seq<Request>): (seq<Option<Pool>>, Ring)
    requires 0 <= r.pos < |r.buf|
    decreases |requests|
  {
    if requests == [] then ([], r)
    else
      var (r1, answer) := Serve(r, requests[0]);
      var (answers, r2) := ServeAll(r1, requests[1..]);
      ([answer] + answers, r2)
  }

  ghost function AskAll(ps: PoolState, requests: seq<Request>): (seq<Option<Pool>>, PoolState)
    decreases |requests|
  {
    if requests == [] then ([], ps)
    else
      var (ps1, answer) := Ask(ps, requests[0]);
      var (answers, ps2) := AskAll(ps1, requests[1..]);
      ([answer] + answers, ps2)
  }

  /** For every size and every sequence of requests, the ring answers as the stack that drops its oldest element
      does, and its occupied slots stay the contiguous block that ends at the position. */
  lemma {:induction false} RingRefinesStack(r: Ring, ps: PoolState, requests: seq<Request>)
    requires Stands(r, ps)
    ensures ServeAll(r, requests).0 == AskAll(ps, requests).0
    ensures Stands(ServeAll(r, requests).1, AskAll(ps, requests).1)
    decreases |requests|
  {
    hide Serve, Ask;
    if requests != [] {
      ServeRefines(r, ps, requests[0]);
      RingRefinesStack(Serve(r, requests[0]).0, Ask(ps, requests[0]).0, requests[1..]);
    }
  }

  // ---------------------------------------------------------------------------------------
  // The recycler of the runtime
  // ---------------------------------------------------------------------------------------

  class PoolBuffer {
    /** `pool_buffer`; empty when `pool_buffer_size` is zero. */
    const buffer: array<Option<Pool>>
    /** `pool_buffer_pos` */
    var pos: int
    /** The number of pools asked of the allocator so far. */
    var made: nat
    /** The pools returned to the allocator so far. */
    ghost var destroyed: seq<Pool>
    ghost var stack: seq<Pool>

    ghost predicate Valid()
      reads this, buffer
    {
      if buffer.Length == 0 then stack == [] else Represents(buffer[..], pos, stack)
    }

    ghost function State(): PoolState
      reads this
    {
      PoolState(stack, buffer.Length, made, destroyed)
    }

    constructor (size: nat)
      ensures Valid() && fresh(buffer)
      ensures State() == PoolState([], size, 0, [])
    {
      buffer := new Option<Pool>[size](_ => None);
      pos := 0;
      made := 0;
      destroyed := [];
      stack := [];
    }

    /** `apr_pool_create` */
    method MakePool() returns (pool: Pool)
      modifies this`made
      ensures pool == old(made) && made == old(made) + 1
    {
      pool := made;
      made := made + 1;
    }

    /** `y_Runtime_create_object_pool` */
    method CreateObjectPool() returns (pool: Pool)
      requires Valid()
      modifies this, buffer
      ensures Valid()
      ensures pool == NextPool(old(State()))
      ensures State() == Draw(old(State()))
    {
      if buffer.Length != 0 {
        TakePops(buffer[..], pos, stack);
        var found := buffer[pos];
        assert buffer[..][pos := None] == buffer[..pos] + [None] + buffer[pos + 1..];
        ghost var was := buffer[..];
        buffer[pos] := None;
        assert buffer[..] == was[pos := None];
        pos := pos - 1;
        pos := if pos < 0 then buffer.Length - 1 else pos;
        stack := if stack == [] then [] else stack[..|stack| - 1];
        if found.None? {
          pool := MakePool();
        } else {
          pool := found.value;
        }
      } else {
        pool := MakePool();
      }
    }

    /** `y_Runtime_free_object_pool`, after the pool has been cleared. */
    method FreeObjectPool(pool: Pool)
      requires Valid()
      modifies this, buffer
      ensures Valid()
      ensures State() == Recycle(old(State()), pool)
    {
      if buffer.Length != 0 {
        StorePushes(buffer[..], pos, stack, pool);
        pos := pos + 1;
        pos := if pos < buffer.Length then pos else 0;
        var oldest := buffer[pos];
        ghost var was := buffer[..];
        buffer[pos] := Some(pool);
        assert buffer[..] == was[pos := Some(pool)];
        if oldest.Some? {
          destroyed := destroyed + [oldest.value];
        }
        assert Overflow(stack + [pool], buffer.Length) == if oldest.Some? then [oldest.value] else [];
        stack := Newest(stack + [pool], buffer.Length);
      } else {
        destroyed := destroyed + [pool];
        assert stack + [pool] == [pool];
        assert Overflow([pool], 0) == [pool];
        stack := [];
      }
    }
  }
}
