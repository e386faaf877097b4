/** The invariant over whole runs, and what it means for the pipeline. */
module PipelineSafety {
  import opened Arithmetic
  import opened PipelineModel
  import opened PipelineInvariant
  import opened PipelineOwnership

  // ------------------------------------------------------ one step keeps it

  lemma {:induction false} PostingUpdate(thr: seq<Thread>, k: nat, u: Thread)
    requires k < |thr|
    ensures Posting(thr[k := u]) + Bit(thr[k].pc.PushPost?) == Posting(thr) + Bit(u.pc.PushPost?)
    decreases |thr|
  {
    var n := |thr| - 1;
    if k == n {
      assert thr[k := u][..n] == thr[..n];
    } else {
      assert thr[k := u][..n] == thr[..n][k := u];
      PostingUpdate(thr[..n], k, u);
    }
  }

  lemma RingKept(s: State, k: nat)
    requires Base(s) && RingInv(s) && ThreadEnabled(s, k)
    ensures RingInv(ThreadStep(s, k))
  {
    StepShape(s, k);
    PostingUpdate(s.thr, k, ThreadStep(s, k).thr[k]);
    assert Role(|s.thr|, k, s.thr[k]);
  }

  /** A thread changes a chunk only while it has it in hand. */
  lemma ReadStaysThread(s: State, j: nat, o: nat, p: Place)
    requires Base(s) && ThreadEnabled(s, j) && Owned(s, o, p)
    requires p != Held(j) || !s.thr[j].pc.Clear?
    ensures ThreadStep(s, j).Read(o) == s.Read(o)
  {
    if s.thr[j].pc.Clear? {
      assert Role(|s.thr|, j, s.thr[j]);
      assert Located(s, s.thr[j].offset, Held(j));
      assert Owned(s, s.thr[j].offset, Held(j));
    }
  }

  /** A child changes a chunk only while its thread has it in hand. */
  lemma ReadStaysChild(c: Config, s: State, j: nat, o: nat, p: Place)
    requires s.WellFormed() && HandshakeInv(s) && OwnerInv(s) && ClientEnabled(s, j) && Owned(s, o, p)
    requires p != Held(j)
    ensures ClientStep(c, s, j).Read(o) == s.Read(o)
  {
    if s.cli[j].pc.Act? {
      assert Handshake(s.thr[j], s.rec[j], s.cli[j]);
      assert Located(s, s.thr[j].offset, Held(j));
      assert Owned(s, s.thr[j].offset, Held(j));
    }
  }

  lemma StageKeptOwn(c: Config, s: State, k: nat)
    requires Base(s) && ThreadEnabled(s, k) && k < s.Last()
    requires Handshake(s.thr[k], s.rec[k], s.cli[k]) && StageAt(c, s, k)
    ensures StageAt(c, ThreadStep(s, k), k)
  {
    var s', t, b, r, q := ThreadStep(s, k), s.thr[k], s.box[k], s.rec[k], s.cli[k];
    var o, d, d' := Taken(t, b, s.free), s.Read(t.offset), s'.Read(s'.thr[k].offset);
    assert Role(|s.thr|, k, t);
    StepShape(s, k);
    if t.pc.PopLock? || t.pc.RecvRead? {
      StageTakes(c, |s.thr|, k, t, b, r, q, d, d', s.exit, s.live, o);
    } else if t.pc.JobWait? || t.pc.Verdict? {
      StageJudges(c, |s.thr|, k, t, b, r, q, d, d', s.exit, s.live, o);
    } else {
      StageRest(c, |s.thr|, k, t, b, r, q, d, d', s.exit, s.live, o);
    }
  }

  lemma StageKeptChild(c: Config, s: State, k: nat)
    requires s.WellFormed() && ClientEnabled(s, k)
    requires Handshake(s.thr[k], s.rec[k], s.cli[k]) && StageAt(c, s, k)
    ensures StageAt(c, ClientStep(c, s, k), k)
  {
    StageChild(c, k, s.thr[k], s.box[k].inn, s.rec[k], s.cli[k], s.Read(s.thr[k].offset),
               ClientStep(c, s, k).Read(s.thr[k].offset));
  }

  /** A stage that does not move keeps its relation to its chunk. */
  lemma StageFrame(c: Config, k: nat, t: Thread, inn: seq<Data>, r: Record, q: Client, d: Data, d': Data)
    requires Stage(c, k, t, inn, r, q, d) && Handshake(t, r, q)
    requires Holds(t) ==> d' == d
    ensures Stage(c, k, t, inn, r, q, d')
  {}

  lemma HeldIsOwned(s: State, k: nat)
    requires s.WellFormed() && OwnerInv(s) && k < |s.thr| && Holds(s.thr[k])
    ensures Owned(s, s.thr[k].offset, Held(k))
  {
    assert Located(s, s.thr[k].offset, Held(k));
  }

  lemma StageKeptOther(c: Config, s: State, j: nat, k: nat)
    requires Base(s) && ThreadEnabled(s, j) && k < s.Last() && j != k
    requires Handshake(s.thr[k], s.rec[k], s.cli[k]) && StageAt(c, s, k)
    ensures StageAt(c, ThreadStep(s, j), k)
  {
    var s', t := ThreadStep(s, j), s.thr[k];
    StepShape(s, j);
    assert s'.box[k].inn == s.box[k].inn;
    if Holds(t) {
      HeldIsOwned(s, k);
      ReadStaysThread(s, j, t.offset, Held(k));
    }
    StageFrame(c, k, t, s.box[k].inn, s.rec[k], s.cli[k], s.Read(t.offset), s'.Read(t.offset));
  }

  lemma StageKeptOtherChild(c: Config, s: State, j: nat, k: nat)
    requires Base(s) && HandshakeInv(s) && ClientEnabled(s, j) && k < s.Last() && j != k
    requires StageAt(c, s, k)
    ensures StageAt(c, ClientStep(c, s, j), k)
  {
    var s', t := ClientStep(c, s, j), s.thr[k];
    assert Handshake(t, s.rec[k], s.cli[k]);
    if Holds(t) {
      HeldIsOwned(s, k);
      ReadStaysChild(c, s, j, t.offset, Held(k));
    }
    StageFrame(c, k, t, s.box[k].inn, s.rec[k], s.cli[k], s.Read(t.offset), s'.Read(t.offset));
  }

  /** `Flow` depends on chunk contents only where a chunk is on its way. */
  lemma FlowFrame(acc: seq<Data>, t: Thread, d: Data, b: Mailbox, t': Thread, d': Data, e: Data, e': Data)
    requires Flow(acc, t, d, b, t', d')
    requires Forwarding(t) ==> e == d
    requires InMail(b, t') ==> e' == d'
    ensures Flow(acc, t, e, b, t', e')
  {}

  lemma MailIsOwned(s: State, k: nat)
    requires s.WellFormed() && OwnerInv(s) && 1 <= k < |s.thr| && InMail(s.box[k], s.thr[k])
    ensures Owned(s, s.box[k].dataoffset, Mail(k))
  {
    assert Located(s, s.box[k].dataoffset, Mail(k));
  }

  lemma FlowKeptSend(s: State, k: nat)
    requires Base(s) && 1 <= k < |s.thr| && ThreadEnabled(s, k - 1) && FlowAt(s, k)
    ensures FlowAt(ThreadStep(s, k - 1), k)
  {
    var j := k - 1;
    var s', t := ThreadStep(s, j), s.thr[k - 1];
    var o := Taken(t, s.box[j], s.free);
    StepShape(s, j);
    assert Role(|s.thr|, j, t);
    assert Link(t, s.box[k], s.thr[k]);
    var d, d' := s.Read(t.offset), s.Read(s.box[k].dataoffset);
    var e, e' := s'.Read(s'.thr[j].offset), if t.pc.SendPost? && t.cmd.JOB? then d else d';
    FlowSend(|s.thr|, j, t, s.box[j], s.rec[j], d, s.exit, s.live, o, s.box[k], s.thr[k], d', e, e');
    FlowFrame(s'.thr[j].acc, s'.thr[j], e, s'.box[k], s'.thr[k], e', e, s'.Read(s'.box[k].dataoffset));
  }

  lemma FlowKeptReceive(s: State, k: nat)
    requires Base(s) && ThreadEnabled(s, k) && 1 <= k < |s.thr| && FlowAt(s, k)
    ensures FlowAt(ThreadStep(s, k), k)
  {
    var s', t, t' := ThreadStep(s, k), s.thr[k - 1], s.thr[k];
    var o := Taken(t', s.box[k], s.free);
    StepShape(s, k);
    assert Role(|s.thr|, k, t');
    assert Link(t, s.box[k], t');
    var d, d' := s.Read(t.offset), s.Read(s.box[k].dataoffset);
    FlowReceive(|s.thr|, k, t, d, s.box[k], t', d', s.rec[k], s.Read(t'.offset), s.exit, s.live, o);
    if Holds(t) {
      HeldIsOwned(s, k - 1);
      ReadStaysThread(s, k, t.offset, Held(k - 1));
    }
    if InMail(s.box[k], t') {
      MailIsOwned(s, k);
      ReadStaysThread(s, k, s.box[k].dataoffset, Mail(k));
    }
    FlowFrame(t.acc, t, d, s'.box[k], s'.thr[k], d', s'.Read(t.offset), s'.Read(s'.box[k].dataoffset));
  }

  lemma FlowKeptOther(s: State, j: nat, k: nat)
    requires Base(s) && ThreadEnabled(s, j) && 1 <= k < |s.thr| && j != k && j != k - 1 && FlowAt(s, k)
    ensures FlowAt(ThreadStep(s, j), k)
  {
    var s', t := ThreadStep(s, j), s.thr[k - 1];
    StepShape(s, j);
    if Holds(t) {
      HeldIsOwned(s, k - 1);
      ReadStaysThread(s, j, t.offset, Held(k - 1));
    }
    if InMail(s.box[k], s.thr[k]) {
      MailIsOwned(s, k);
      ReadStaysThread(s, j, s.box[k].dataoffset, Mail(k));
    }
    FlowFrame(t.acc, t, s.Read(t.offset), s.box[k], s.thr[k], s.Read(s.box[k].dataoffset),
              s'.Read(t.offset), s'.Read(s.box[k].dataoffset));
  }

  lemma FlowKeptChild(c: Config, s: State, j: nat, k: nat)
    requires Base(s) && HandshakeInv(s) && ClientEnabled(s, j) && 1 <= k < |s.thr| && FlowAt(s, k)
    ensures FlowAt(ClientStep(c, s, j), k)
  {
    var s', t := ClientStep(c, s, j), s.thr[k - 1];
    if Forwarding(t) {
      HeldIsOwned(s, k - 1);
      assert Handshake(s.thr[j], s.rec[j], s.cli[j]);
      if j != k - 1 { ReadStaysChild(c, s, j, t.offset, Held(k - 1)); }
    }
    if InMail(s.box[k], s.thr[k]) {
      MailIsOwned(s, k);
      ReadStaysChild(c, s, j, s.box[k].dataoffset, Mail(k));
    }
    FlowFrame(t.acc, t, s.Read(t.offset), s.box[k], s.thr[k], s.Read(s.box[k].dataoffset),
              s'.Read(t.offset), s'.Read(s.box[k].dataoffset));
  }

  lemma RoleInvKept(c: Config, s: State, a: Actor)
    requires Base(s) && Enabled(s, a)
    ensures RoleInv(Step(c, s, a))
  {
    if a.Module? {
      var t := s.thr[a.k];
      StepShape(s, a.k);
      assert Role(|s.thr|, a.k, t);
      RoleKept(|s.thr|, a.k, t, s.box[a.k], s.rec[a.k], s.Read(t.offset), s.exit, s.live, Taken(t, s.box[a.k], s.free));
    }
  }

  lemma LinkInvKept(s: State, j: nat)
    requires Base(s) && ThreadEnabled(s, j)
    ensures LinkInv(ThreadStep(s, j))
  {
    var s', n, o := ThreadStep(s, j), |s.thr|, Taken(s.thr[j], s.box[j], s.free);
    StepShape(s, j);
    assert Role(n, j, s.thr[j]);
    forall k | 1 <= k < |s.thr|
      ensures Link(s'.thr[k - 1], s'.box[k], s'.thr[k])
    {
      assert Link(s.thr[k - 1], s.box[k], s.thr[k]);
      if j == k - 1 {
        LinkSend(n, j, s.thr[j], s.box[j], s.rec[j], s.Read(s.thr[j].offset), s.exit, s.live, o, s.box[k], s.thr[k]);
      } else if j == k {
        LinkReceive(n, k, s.thr[k - 1], s.box[k], s.thr[k], s.rec[k], s.Read(s.thr[k].offset), s.Read(o), s.exit, s.live, o);
      }
    }
  }

  lemma HandshakeInvKept(c: Config, s: State, a: Actor)
    requires Base(s) && HandshakeInv(s) && Enabled(s, a)
    ensures HandshakeInv(Step(c, s, a))
  {
    var s' := Step(c, s, a);
    forall k | 0 <= k < s.Last()
      ensures Handshake(s'.thr[k], s'.rec[k], s'.cli[k])
    {
      assert Handshake(s.thr[k], s.rec[k], s.cli[k]);
      assert Role(|s.thr|, k, s.thr[k]);
      if a.Module? {
        StepShape(s, a.k);
        if a.k == k {
          HandshakeThread(|s.thr|, k, s.thr[k], s.box[k], s.rec[k], s.cli[k], s.Read(s.thr[k].offset),
                          s.exit, s.live, Taken(s.thr[k], s.box[k], s.free));
        }
      } else if a == Child(k) {
        HandshakeChild(c, k, s.thr[k], s.rec[k], s.cli[k], s.Read(s.rec[k].offset));
      }
    }
  }

  /** Steps other than a thread's leave every place where it is. */
  lemma OwnerInvKept(c: Config, s: State, a: Actor)
    requires Base(s) && Enabled(s, a)
    ensures OwnerInv(Step(c, s, a)) && Step(c, s, a).owner.Keys == s.owner.Keys
  {
    if a.Module? {
      OwnerKept(s, a.k);
      ChunksKept(s, a.k);
    } else {
      var s' := Step(c, s, a);
      forall o: nat, p: Place
        ensures Owned(s', o, p) <==> Located(s', o, p)
      {
        assert Owned(s, o, p) <==> Located(s, o, p);
      }
    }
  }

  lemma StageKept(c: Config, s: State, a: Actor, k: nat)
    requires Base(s) && HandshakeInv(s) && Enabled(s, a) && k < s.Last() && StageAt(c, s, k)
    ensures StageAt(c, Step(c, s, a), k)
  {
    assert Handshake(s.thr[k], s.rec[k], s.cli[k]);
    match a
    case Module(j) => if j == k { StageKeptOwn(c, s, k); } else { StageKeptOther(c, s, j, k); }
    case Child(j) => if j == k { StageKeptChild(c, s, k); } else { StageKeptOtherChild(c, s, j, k); }
    case _ =>
  }

  lemma StageInvKept(c: Config, s: State, a: Actor)
    requires Base(s) && HandshakeInv(s) && StageInv(c, s) && Enabled(s, a)
    ensures StageInv(c, Step(c, s, a))
  {
    forall k | 0 <= k < s.Last()
      ensures StageAt(c, Step(c, s, a), k)
    {
      StageKept(c, s, a, k);
    }
  }

  lemma FlowKept(c: Config, s: State, a: Actor, k: nat)
    requires Base(s) && HandshakeInv(s) && Enabled(s, a) && 1 <= k < |s.thr| && FlowAt(s, k)
    ensures FlowAt(Step(c, s, a), k)
  {
    match a
    case Module(j) =>
      if j == k - 1 { FlowKeptSend(s, k); } else if j == k { FlowKeptReceive(s, k); } else { FlowKeptOther(s, j, k); }
    case Child(j) => FlowKeptChild(c, s, j, k);
    case _ =>
  }

  lemma FlowInvKept(c: Config, s: State, a: Actor)
    requires Base(s) && HandshakeInv(s) && FlowInv(s) && Enabled(s, a)
    ensures FlowInv(Step(c, s, a))
  {
    forall k | 1 <= k < |s.thr|
      ensures FlowAt(Step(c, s, a), k)
    {
      FlowKept(c, s, a, k);
    }
  }

  /** Every step of every thread and child keeps the invariant. */
  lemma StepKeepsInv(c: Config, s: State, a: Actor)
    requires Inv(c, s) && Enabled(s, a)
    ensures Inv(c, Step(c, s, a))
    ensures Step(c, s, a).owner.Keys == s.owner.Keys
  {
    RoleInvKept(c, s, a);
    HandshakeInvKept(c, s, a);
    OwnerInvKept(c, s, a);
    StageInvKept(c, s, a);
    FlowInvKept(c, s, a);
    if a.Module? {
      LinkInvKept(s, a.k);
      RingKept(s, a.k);
    }
  }

  lemma {:induction false} PostingNone(thr: seq<Thread>)
    requires forall k :: 0 <= k < |thr| ==> !thr[k].pc.PushPost?
    ensures Posting(thr) == 0
  {
    if thr != [] { PostingNone(thr[..|thr| - 1]); }
  }

  lemma InitBase(s: State, chunks: seq<nat>)
    requires Init(s, chunks)
    ensures Base(s)
  {
    forall k | 1 <= k < |s.thr|
      ensures Link(s.thr[k - 1], s.box[k], s.thr[k])
    {
      assert s.box[k] == Mailbox(0, 1, JOB, s.box[k].dataoffset, [], [], []);
    }
    forall o: nat, p: Place
      ensures Owned(s, o, p) <==> Located(s, o, p)
    {}
  }

  lemma InitInv(c: Config, s: State, chunks: seq<nat>)
    requires Init(s, chunks)
    ensures Inv(c, s)
  {
    InitBase(s, chunks);
    PostingNone(s.thr);
    forall k | 0 <= k < s.Last()
      ensures Handshake(s.thr[k], s.rec[k], s.cli[k]) && StageAt(c, s, k) && FlowAt(s, k + 1)
    {
      assert s.box[k].inn == [] && s.box[k + 1].inn == [];
      assert s.thr[k].acc == [] && s.cli[k].jobs == 0 && s.cli[k].crx == [];
    }
  }

  lemma {:induction false} RunKeepsInv(c: Config, s: State, schedule: seq<Actor>)
    requires Inv(c, s) && Legal(c, s, schedule)
    ensures Inv(c, Run(c, s, schedule))
    ensures Run(c, s, schedule).owner.Keys == s.owner.Keys
    decreases |schedule|
  {
    if schedule != [] {
      StepKeepsInv(c, s, schedule[0]);
      RunKeepsInv(c, Step(c, s, schedule[0]), schedule[1..]);
    }
  }
}
