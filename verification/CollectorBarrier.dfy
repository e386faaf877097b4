/** What the barrier guarantees, for any number of sources and any interleaving. */
module CollectorBarrier {
  import opened Arithmetic
  import opened CollectorModel

  /** The source is between two waits for a name, or about to be let through. */
  predicate IsOpen(q: Source) {
    if q.pc.Start? || q.pc.Closed? then q.empty + q.data == 1 && (q.pc.Start? ==> q.data == 0)
    else q.empty == 0 && q.data == 0
  }

  /** It waits for a name, and its wish for one has been taken note of. */
  predicate IsClosed(q: Source) {
    (q.pc.Start? || q.pc.Closed?) && q.empty == 0 && q.data == 0
  }

  /** Source `i` has been let through in the collector's current round. */
  predicate Released(pc: CollectorPc, i: nat) {
    match pc
    case AwaitName => false
    case Copy(j) => i < j
    case Release(j) => i < j
    case Collect(j) => i >= j
    case Announce => false
  }

  /** It has been given the name of the current round. */
  predicate Copied(pc: CollectorPc, i: nat) {
    Released(pc, i) || pc == Release(i) || pc.Collect? || pc.Announce?
  }

  /** Between handing an object over and giving its successor to all sources. */
  predicate Renewing(s: State) {
    s.first.Naming? || s.first.Posting? || s.empty > 0 || s.pc.Copy? || s.pc.Release?
  }

  /** One token: in a semaphore, with `first_action` or with the collector. */
  predicate TokenInv(s: State) {
    s.data + s.empty + Bit(!s.first.Waiting?) + Bit(!s.pc.AwaitName?) == 1
  }

  predicate NameInv(s: State) {
    && (forall j :: 0 <= j < |s.handed| ==> s.handed[j] == j)
    && s.name == (if s.first.Naming? then |s.handed| - 1 else |s.handed|)
    && (Renewing(s) || !s.pc.AwaitName? ==> |s.handed| >= 1)
    && (match s.pc case Copy(i) => i <= |s.src| case Release(i) => i < |s.src| case Collect(i) => i <= |s.src| case _ => true)
  }

  predicate SourceOk(s: State, i: nat)
    requires i < |s.src|
  {
    var q := s.src[i];
    && (if Released(s.pc, i) then IsOpen(q) else IsClosed(q))
    && q.epoch == (if Renewing(s) && !Copied(s.pc, i) then |s.handed| - 1 else |s.handed|)
    && (Copied(s.pc, i) ==> q.name == s.name)
    && (q.epoch >= 1 ==> q.name == q.epoch)
    && (!q.pc.Start? ==> q.epoch >= 1)
  }

  predicate Inv(s: State) {
    s.limit > 0 && TokenInv(s) && NameInv(s) && forall i :: 0 <= i < |s.src| ==> SourceOk(s, i)
  }

  // ---------------------------------------------------------- preservation

  lemma TokenKept(s: State, a: Actor)
    requires Inv(s) && Enabled(s, a)
    ensures TokenInv(Step(s, a))
  {}

  lemma NameKept(s: State, a: Actor)
    requires Inv(s) && Enabled(s, a)
    ensures NameInv(Step(s, a))
  {}

  /** When the collector reaches a source, the source is as its loop expects it. */
  lemma SourceKept(s: State, a: Actor, i: nat)
    requires s.limit > 0 && TokenInv(s) && NameInv(s) && Enabled(s, a) && i < |s.src| && SourceOk(s, i)
    ensures SourceOk(Step(s, a), i)
  {}

  lemma InvKept(s: State, a: Actor)
    requires Inv(s) && Enabled(s, a)
    ensures Inv(Step(s, a))
  {
    TokenKept(s, a);
    NameKept(s, a);
    forall i | 0 <= i < |s.src|
      ensures SourceOk(Step(s, a), i)
    {
      SourceKept(s, a, i);
    }
  }

  lemma {:induction false} RunKeepsInv(s: State, schedule: seq<Actor>)
    requires Inv(s) && Legal(s, schedule)
    ensures Inv(Run(s, schedule))
    decreases |schedule|
  {
    if schedule != [] {
      InvKept(s, schedule[0]);
      RunKeepsInv(Step(s, schedule[0]), schedule[1..]);
    }
  }

  lemma InitInv(s: State)
    requires Init(s)
    ensures Inv(s)
  {
    forall i | 0 <= i < |s.src|
      ensures SourceOk(s, i)
    {
      assert s.src[i].epoch == 0;
    }
  }

  ghost predicate Reachable(s: State) {
    exists s0: State, schedule: seq<Actor> :: Init(s0) && Legal(s0, schedule) && Run(s0, schedule) == s
  }

  lemma ReachableInv(s: State)
    requires Reachable(s)
    ensures Inv(s)
  {
    var s0: State, schedule: seq<Actor> :| Init(s0) && Legal(s0, schedule) && Run(s0, schedule) == s;
    InitInv(s0);
    RunKeepsInv(s0, schedule);
  }

  // ------------------------------------------------------------- guarantees

  /** No frame is ever added to an object that has been handed to the pipeline: a
      source about to add a frame has the name of the one object that is open. */
  lemma NoFrameAfterHandOff(s: State, i: nat)
    requires Reachable(s) && i < |s.src| && s.src[i].pc.Add?
    ensures s.src[i].name !in s.handed && s.src[i].name == s.name
  {
    ReachableInv(s);
    assert SourceOk(s, i);
  }

  /** So what an object holds when it is handed over is what it will always hold. */
  lemma HandedObjectsFrozen(s: State, a: Actor, i: nat, o: int)
    requires Reachable(s) && Enabled(s, a) && i < |s.src| && o in s.handed
    ensures o in Step(s, a).handed
    ensures FramesOf(Step(s, a).src[i].log, o) == FramesOf(s.src[i].log, o)
  {
    if a.Frame? && a.i == i && s.src[i].pc.Add? {
      NoFrameAfterHandOff(s, i);
      assert (s.src[i].log + [s.src[i].name])[..|s.src[i].log|] == s.src[i].log;
    }
  }

  /** How many frames of a source went to an object. */
  function FramesOf(log: seq<int>, o: int): nat {
    if log == [] then 0 else FramesOf(log[..|log| - 1], o) + Bit(log[|log| - 1] == o)
  }

  /** All open sources add to the same object, and while `first_action` is between
      taking a name and publishing the next one no source is open at all. */
  lemma OneObjectOpen(s: State, i: nat, j: nat)
    requires Reachable(s) && i < |s.src| && j < |s.src|
    ensures s.src[i].pc.Add? && s.src[j].pc.Add? ==> s.src[i].name == s.src[j].name
    ensures !s.first.Waiting? ==> IsClosed(s.src[i])
  {
    ReachableInv(s);
    assert SourceOk(s, i) && SourceOk(s, j);
  }

  /** Objects are handed over in the order in which they were made, each once. */
  lemma HandedInOrder(s: State, j: nat)
    requires Reachable(s) && j < |s.handed|
    ensures s.handed[j] == j
  {
    ReachableInv(s);
  }

  /** The barrier never jams: somebody can always move. */
  lemma NoDeadlock(s: State)
    requires Reachable(s)
    ensures Enabled(s, First) || Enabled(s, Collector)
            || exists i :: 0 <= i < |s.src| && Enabled(s, Frame(i, false))
  {
    ReachableInv(s);
    if s.pc.Collect? && s.pc.i < |s.src| {
      assert SourceOk(s, s.pc.i);
      assert Enabled(s, Collector) || Enabled(s, Frame(s.pc.i, false));
    }
  }
}
