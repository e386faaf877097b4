/** Chunk conservation: every chunk is in exactly one place at every step. */
module PipelineOwnership {
  import opened Sequences
  import opened PipelineModel
  import opened PipelineInvariant

  /** The invariants the ownership argument needs. */
  ghost predicate Base(s: State) {
    s.WellFormed() && RoleInv(s) && LinkInv(s) && OwnerInv(s)
  }

  /** `s'` differs from `s` by one step of thread `k`. */
  lemma StepShape(s: State, k: nat)
    requires s.WellFormed() && ThreadEnabled(s, k)
    ensures var s', t, b := ThreadStep(s, k), s.thr[k], s.box[k];
            var o := Taken(t, b, s.free);
            && s'.WellFormed() && |s'.thr| == |s.thr|
            && (forall j :: 0 <= j < |s.thr| && j != k ==> s'.thr[j] == s.thr[j])
            && s'.thr[k] == ThreadNext(|s.thr|, k, t, b, s.rec[k], s.Read(t.offset), s.exit, s.live, o)
            && (forall j :: 0 <= j < |s.thr| && j != k && j != k + 1 ==> s'.box[j] == s.box[j])
            && s'.box[k] == OwnBox(t, b, s.Read(o))
            && (k + 1 < |s.thr| ==> s'.box[k + 1] == NextBox(t, s.box[k + 1]))
            && (forall j :: 0 <= j < |s.thr| && j != k ==> s'.rec[j] == s.rec[j])
            && s'.rec[k] == OwnRecord(t, s.rec[k])
            && s'.cli == s.cli
  {}

  lemma HoldsStays(s: State, k: nat, j: nat)
    requires Base(s) && ThreadEnabled(s, k) && !Moves(s.thr[k], s.box[k]) && j < |s.thr|
    ensures var s' := ThreadStep(s, k);
            Holds(s'.thr[j]) == Holds(s.thr[j]) && (Holds(s.thr[j]) ==> s'.thr[j].offset == s.thr[j].offset)
  {
    StepShape(s, k);
    HoldsKept(|s.thr|, k, s.thr[k], s.box[k], s.rec[k], s.Read(s.thr[k].offset), s.exit, s.live,
              Taken(s.thr[k], s.box[k], s.free));
  }

  /** A mailbox that thread `k` does not move a chunk into or out of. */
  lemma MailStays(s: State, k: nat, j: nat)
    requires Base(s) && ThreadEnabled(s, k) && 1 <= j < |s.thr|
    requires j == k ==> !(s.thr[k].pc.RecvRead? && s.box[k].cmd.JOB?)
    requires j == k + 1 ==> !(s.thr[k].pc.SendPost? && s.thr[k].cmd.JOB?)
    ensures var s' := ThreadStep(s, k);
            && InMail(s'.box[j], s'.thr[j]) == InMail(s.box[j], s.thr[j])
            && (InMail(s.box[j], s.thr[j]) ==> s'.box[j].dataoffset == s.box[j].dataoffset)
  {
    StepShape(s, k);
    assert Link(s.thr[j - 1], s.box[j], s.thr[j]);
    if j == k {
      var o := Taken(s.thr[k], s.box[k], s.free);
      MailKeptReceive(|s.thr|, k, s.thr[k - 1], s.box[k], s.thr[k], s.rec[k], s.Read(s.thr[k].offset), s.Read(o),
                      s.exit, s.live, o);
    } else if j == k + 1 {
      MailKeptSend(|s.thr|, k, s.thr[k], s.box[k + 1], s.thr[k + 1]);
    }
  }

  lemma StaysLocated(s: State, k: nat, o: nat, p: Place)
    requires Base(s) && ThreadEnabled(s, k)
    requires p == Held(k) ==> !Moves(s.thr[k], s.box[k])
    requires p == Mail(k) ==> !(s.thr[k].pc.RecvRead? && s.box[k].cmd.JOB?)
    requires p == Mail(k + 1) ==> !(s.thr[k].pc.SendPost? && s.thr[k].cmd.JOB?)
    requires p == Free ==> !s.thr[k].pc.PopLock? && !s.thr[k].pc.PushLock?
    ensures Located(ThreadStep(s, k), o, p) == Located(s, o, p)
  {
    var s' := ThreadStep(s, k);
    StepShape(s, k);
    match p
    case Free =>
    case Held(j) =>
      if j == k { HoldsStays(s, k, j); }
    case Mail(j) =>
      if 1 <= j < |s.thr| { MailStays(s, k, j); }
  }

  /** Where the chunk a thread moves comes from, and where it goes. */
  function Origin(s: State, k: nat): Place
    requires s.WellFormed() && k < |s.thr|
  {
    match s.thr[k].pc
    case PopLock => Free
    case RecvRead => Mail(k)
    case _ => Held(k)
  }

  function Target(s: State, k: nat): Place
    requires s.WellFormed() && k < |s.thr|
  {
    match s.thr[k].pc
    case SendPost => Mail(k + 1)
    case PushLock => Free
    case _ => Held(k)
  }

  function Moved(s: State, k: nat): nat
    requires s.WellFormed() && k < |s.thr|
  {
    if s.thr[k].pc.PopLock? || s.thr[k].pc.RecvRead? then Taken(s.thr[k], s.box[k], s.free) else s.thr[k].offset
  }

  /** Before a move the chunk is at its origin and nothing is at its target. */
  lemma MoveFrom(s: State, k: nat, o: nat)
    requires Base(s) && ThreadEnabled(s, k) && Moves(s.thr[k], s.box[k])
    ensures Located(s, Moved(s, k), Origin(s, k))
    ensures Target(s, k) != Free ==> !Located(s, o, Target(s, k))
    ensures !Target(s, k).Mail? || k + 1 < |s.thr|
  {
    if s.thr[k].pc.SendPost? {
      assert Link(s.thr[k], s.box[k + 1], s.thr[k + 1]);
    }
    assert Role(|s.thr|, k, s.thr[k]);
  }

  /** After it only the moved chunk has changed place. */
  lemma MoveTo(s: State, k: nat, o: nat)
    requires Base(s) && ThreadEnabled(s, k) && Moves(s.thr[k], s.box[k])
    ensures var s', x := ThreadStep(s, k), Moved(s, k);
            && (Located(s', o, Origin(s, k)) <==> Located(s, o, Origin(s, k)) && o != x)
            && (Located(s', o, Target(s, k)) <==> Located(s, o, Target(s, k)) || o == x)
  {
    var s' := ThreadStep(s, k);
    StepShape(s, k);
    assert Role(|s.thr|, k, s.thr[k]);
    MoveFrom(s, k, o);
    if k + 1 < |s.thr| { assert Link(s.thr[k], s.box[k + 1], s.thr[k + 1]); }
    if k > 0 { assert Link(s.thr[k - 1], s.box[k], s.thr[k]); }
    if s.thr[k].pc.PopLock? {
      assert s.free == [s.free[0]] + s.free[1..];
    }
  }

  /** A pushed chunk is not in the ring already. */
  lemma RingStaysDistinct(s: State, k: nat)
    requires Base(s) && ThreadEnabled(s, k)
    ensures Distinct(ThreadStep(s, k).free)
  {
    var t := s.thr[k];
    if t.pc.PushLock? {
      assert Role(|s.thr|, k, t);
      assert Located(s, t.offset, Held(k));
      assert Owned(s, t.offset, Held(k));
      assert !Owned(s, t.offset, Free);
      assert !Located(s, t.offset, Free);
    }
  }

  /** One point of the ownership relation after a move. */
  lemma OwnedAfterMove(s: State, k: nat, o: nat, p: Place)
    requires Base(s) && ThreadEnabled(s, k) && Moves(s.thr[k], s.box[k])
    ensures Owned(ThreadStep(s, k), o, p) <==> Located(ThreadStep(s, k), o, p)
  {
    var s', x := ThreadStep(s, k), Moved(s, k);
    MoveFrom(s, k, x);
    assert Owned(s, x, Origin(s, k));
    assert s'.owner == s.owner[x := Target(s, k)];
    assert Owned(s, o, p) <==> Located(s, o, p);
    if p == Origin(s, k) || p == Target(s, k) {
      MoveTo(s, k, o);
    } else {
      StaysLocated(s, k, o, p);
      assert Owned(s, x, p) <==> Located(s, x, p);
    }
  }

  lemma OwnerKept(s: State, k: nat)
    requires Base(s) && ThreadEnabled(s, k)
    ensures OwnerInv(ThreadStep(s, k))
  {
    var s' := ThreadStep(s, k);
    RingStaysDistinct(s, k);
    forall o: nat, p: Place
      ensures Owned(s', o, p) <==> Located(s', o, p)
    {
      if Moves(s.thr[k], s.box[k]) {
        OwnedAfterMove(s, k, o, p);
      } else {
        assert Owned(s, o, p) <==> Located(s, o, p);
        StaysLocated(s, k, o, p);
      }
    }
  }

  lemma ChunksKept(s: State, k: nat)
    requires Base(s) && ThreadEnabled(s, k)
    ensures ThreadStep(s, k).owner.Keys == s.owner.Keys
  {
    if Moves(s.thr[k], s.box[k]) {
      MoveFrom(s, k, 0);
      assert Owned(s, Moved(s, k), Origin(s, k));
    }
  }
}
