/** The ring of free chunks: a fixed-size buffer, a mutex and a counting semaphore.
    A mutex section is one step and a semaphore operation is one step, so any
    sequence of the class's methods is an interleaving of concurrent users. */
module RingBuffer {

  // ------------------------------------------------ the cells under the mutex

  /** `buffer`, `start` and `used`; `max_cnt` is the number of cells. */
  datatype Cells = Cells(buffer: seq<nat>, start: nat, used: nat)
  {
    /** Both counters are where the mutex sections leave them. */
    predicate InRange() {
      used <= |buffer| && (start < |buffer| || start == used == 0)
    }

    /** Cell number of the `i`-th element: one conditional subtraction, no modulo. */
    function Pos(i: nat): int {
      if start + i >= |buffer| then start + i - |buffer| else start + i
    }

    /** The elements, oldest first. */
    function Contents(): (q: seq<nat>)
      requires InRange()
      ensures |q| == used
    {
      seq(used, i requires 0 <= i < used => buffer[Pos(i)])
    }

    /** The critical section of `ring_buffer_push`; it has no overflow test. */
    function Push(x: nat): Cells
      requires InRange() && buffer != []
    {
      Cells(buffer[Pos(used) := x], start, used + 1)
    }

    /** The critical section of `ring_buffer_pop`: the element and the cells left. */
    function Pop(): (nat, Cells)
      requires start < |buffer| && used > 0
    {
      (buffer[start], Cells(buffer, if start + 1 >= |buffer| then 0 else start + 1, used - 1))
    }
  }

  /** With room left a push appends, across the wrap-around too. */
  lemma PushAppends(r: Cells, x: nat)
    requires r.InRange() && r.used < |r.buffer|
    ensures r.Push(x).InRange() && r.Push(x).Contents() == r.Contents() + [x]
  {
    var q, q' := r.Contents(), r.Push(x).Contents();
    forall i | 0 <= i < r.used
      ensures q'[i] == q[i]
    {
      assert r.Pos(i) != r.Pos(r.used);
    }
  }

  /** A pop takes the oldest element. */
  lemma PopTakesOldest(r: Cells)
    requires r.InRange() && r.used > 0
    ensures r.Pop().1.InRange()
    ensures r.Contents() == [r.Pop().0] + r.Pop().1.Contents()
  {
    var q, q' := r.Contents(), r.Pop().1.Contents();
    forall i | 0 <= i < r.used - 1
      ensures q'[i] == q[i + 1]
    {}
    assert q[0] == r.Pop().0;
  }

  /** The missing overflow test matters exactly when the ring is full: the counters
      then leave their range. */
  lemma RoomExactly(r: Cells, x: nat)
    requires r.InRange() && r.buffer != []
    ensures r.Push(x).InRange() <==> r.used < |r.buffer|
    ensures r.Push(x).InRange() ==> r.Push(x).Contents() == r.Contents() + [x]
  {
    if r.used < |r.buffer| { PushAppends(r, x); }
  }

  /** What the next pop sees of it: the oldest element is gone, unless the push put the
      same value over it. */
  lemma OverflowExactly(r: Cells, x: nat)
    requires r.InRange() && r.used > 0
    ensures r.Push(x).Pop().0 == r.Contents()[0] <==> r.used < |r.buffer| || x == r.Contents()[0]
  {
    assert r.Pos(0) == r.start;
    if r.used == |r.buffer| { assert r.Pos(r.used) == r.start; }
  }

  /** Both at once, in terms of the contents alone. */
  lemma PopContents(r: Cells)
    requires r.InRange() && r.used > 0
    ensures r.Pop().1.InRange() && |r.Contents()| == r.used
    ensures r.Pop().0 == r.Contents()[0] && r.Pop().1.Contents() == r.Contents()[1..]
  {
    PopTakesOldest(r);
  }

  // -------------------------------------------------- concurrent users

  /** The ring with its semaphore. Auxiliary: users between `sem_wait` and the
      critical section of a pop, users between that of a push and `sem_post`, and
      everything that went in and came out. */
  datatype Ring = Ring(cells: Cells, sem: nat, popping: nat, posting: nat, pushed: seq<nat>, popped: seq<nat>)

  datatype Op = SemWait | PopSection | PushSection(x: nat) | SemPost

  predicate Can(r: Ring, op: Op) {
    match op
    case SemWait => r.sem > 0
    case PopSection => r.popping > 0
    case PushSection(_) => true
    case SemPost => r.posting > 0
  }

  /** One step of some user. */
  function Next(r: Ring, op: Op): Ring
    requires Valid(r) && Can(r, op) && (op.PushSection? ==> r.cells.buffer != [])
  {
    match op
    case SemWait => r.(sem := r.sem - 1, popping := r.popping + 1)
    case PopSection =>
      var (x, cells) := r.cells.Pop();
      r.(cells := cells, popping := r.popping - 1, popped := r.popped + [x])
    case PushSection(x) => r.(cells := r.cells.Push(x), posting := r.posting + 1, pushed := r.pushed + [x])
    case SemPost => r.(sem := r.sem + 1, posting := r.posting - 1)
  }

  /** The semaphore plus the operations in progress is `used`, both counters are in
      range, and what came out followed by what is inside is what went in. */
  predicate Valid(r: Ring) {
    && r.cells.InRange()
    && r.sem + r.popping + r.posting == r.cells.used
    && r.pushed == r.popped + r.cells.Contents()
  }

  lemma NextValid(r: Ring, op: Op)
    requires Valid(r) && Can(r, op)
    requires op.PushSection? ==> r.cells.used < |r.cells.buffer|
    ensures Valid(Next(r, op)) && |Next(r, op).cells.buffer| == |r.cells.buffer|
  {
    match op
    case PushSection(x) => PushAppends(r.cells, x);
    case PopSection => PopTakesOldest(r.cells);
    case _ =>
  }

  /** At every turn the user may move, and no push is made while as many elements as
      the ring has cells are in it. */
  predicate Legal(r: Ring, ops: seq<Op>)
    requires Valid(r)
    decreases |ops|
  {
    ops == [] ||
    (Can(r, ops[0]) && (ops[0].PushSection? ==> r.cells.used < |r.cells.buffer|)
     && (NextValid(r, ops[0]); Legal(Next(r, ops[0]), ops[1..])))
  }

  function Run(r: Ring, ops: seq<Op>): Ring
    requires Valid(r) && Legal(r, ops)
    decreases |ops|
  {
    if ops == [] then r else (NextValid(r, ops[0]); Run(Next(r, ops[0]), ops[1..]))
  }

  function Pushes(ops: seq<Op>): seq<nat> {
    if ops == [] then []
    else (if ops[0].PushSection? then [ops[0].x] else []) + Pushes(ops[1..])
  }

  lemma {:induction false} RunPushes(r: Ring, ops: seq<Op>)
    requires Valid(r) && Legal(r, ops)
    ensures Valid(Run(r, ops))
    ensures Run(r, ops).pushed == r.pushed + Pushes(ops)
    ensures r.popped <= Run(r, ops).popped
    decreases |ops|
  {
    if ops != [] {
      NextValid(r, ops[0]);
      var next, rest := Next(r, ops[0]), ops[1..];
      RunPushes(next, rest);
      assert next.pushed + Pushes(rest) == r.pushed + Pushes(ops);
    }
  }

  /** Under any interleaving of pushers and poppers the ring is a FIFO queue: what is
      popped is, in order, what was inside and then what was pushed. */
  lemma RefinesFifo(r: Ring, ops: seq<Op>)
    requires Valid(r) && Legal(r, ops)
    ensures var e := Run(r, ops);
            && Valid(e) && e.pushed == r.pushed + Pushes(ops)
            && r.popped <= e.popped <= r.popped + r.cells.Contents() + Pushes(ops)
            && e.popped + e.cells.Contents() == r.popped + r.cells.Contents() + Pushes(ops)
  {
    RunPushes(r, ops);
  }

  // ------------------------------------------------------------- the class

  class RingBuffer {
    const maxCnt: nat
    const buffer: array<nat>
    var start: nat
    var used: nat
    var sem: nat
    ghost var popping: nat
    ghost var posting: nat
    ghost var pushed: seq<nat>
    ghost var popped: seq<nat>
    ghost var contents: seq<nat>  // what is inside, oldest first

    ghost function View(): Ring
      reads this, buffer
    {
      Ring(Cells(buffer[..], start, used), sem, popping, posting, pushed, popped)
    }

    ghost predicate Ok()
      reads this, buffer
    {
      buffer.Length == maxCnt && Valid(View()) && contents == View().cells.Contents()
    }

    /** `ring_buffer_create`: all cells 0; created "full" unless `empty`. */
    constructor (maxCnt: nat, empty: bool)
      ensures Ok() && fresh(buffer) && this.maxCnt == maxCnt
      ensures contents == if empty then [] else seq(maxCnt, _ => 0)
      ensures sem == used == if empty then 0 else maxCnt
      ensures start == popping == posting == 0 && popped == []
    {
      this.maxCnt := maxCnt;
      buffer := new nat[maxCnt](_ => 0);
      start := 0;
      used := if empty then 0 else maxCnt;
      sem := if empty then 0 else maxCnt;
      popping, posting, popped := 0, 0, [];
      pushed := if empty then [] else seq(maxCnt, _ => 0);
      contents := pushed;
    }

    /** Overwrites the cells of a freshly created full ring, as its owner does before
        it hands the ring to any thread. */
    method Fill(i: nat, x: nat)
      requires Ok() && i < maxCnt && start == 0 && used == sem == maxCnt && popped == []
      modifies buffer, this`pushed, this`contents
      ensures Ok() && buffer[..] == old(buffer[..])[i := x]
      ensures contents == old(contents)[i := x]
    {
      buffer[i] := x;
      pushed := pushed[i := x];
      contents := pushed;
    }

    /** Passing the semaphore, when it does not block. */
    method SemWaitStep()
      requires Ok() && Can(View(), SemWait)
      modifies this`sem, this`popping
      ensures Ok() && View() == Next(old(View()), SemWait)
    {
      sem := sem - 1;
      popping := popping + 1;
    }

    method PopStep() returns (offs: nat)
      requires Ok() && Can(View(), PopSection)
      modifies this`start, this`used, this`popping, this`popped, this`contents
      ensures Ok() && View() == Next(old(View()), PopSection)
      ensures old(contents) == [offs] + contents
    {
      ghost var before := View();
      NextValid(before, PopSection);
      PopContents(before.cells);
      offs := buffer[start];
      start := start + 1;
      if start >= maxCnt { start := 0; }
      used := used - 1;
      popping := popping - 1;
      popped := popped + [offs];
      contents := contents[1..];
      assert View() == Next(before, PopSection);
    }

    /** Its caller answers for the room that the code does not check. */
    method PushStep(offs: nat)
      requires Ok() && used < maxCnt
      modifies buffer, this`used, this`posting, this`pushed, this`contents
      ensures Ok() && View() == Next(old(View()), PushSection(offs))
      ensures contents == old(contents) + [offs]
    {
      ghost var before := View();
      NextValid(before, PushSection(offs));
      PushAppends(before.cells, offs);
      var pos := start + used;
      used := used + 1;
      if pos >= maxCnt { pos := pos - maxCnt; }
      buffer[pos] := offs;
      posting := posting + 1;
      pushed := pushed + [offs];
      contents := contents + [offs];
      assert View() == Next(before, PushSection(offs));
    }

    method SemPostStep()
      requires Ok() && Can(View(), SemPost)
      modifies this`sem, this`posting
      ensures Ok() && View() == Next(old(View()), SemPost)
    {
      sem := sem + 1;
      posting := posting - 1;
    }
  }
}
