/** The thread functions and the client loop on the structures they share, one
    method for each step that can be interleaved with others. */
module PipelineThreads {
  import opened Arithmetic
  import opened PipelineModel
  import opened PipelineInvariant
  import opened PipelineOwnership
  import opened PipelineSafety
  import opened PipelineTheorems
  import opened PipelineProgress
  import R = RingBuffer

  /** What all threads of a pipeline share: the chunks, the ring of free chunks, the
      exit flag and the state the source checks. */
  class Shared {
    const ring: R.RingBuffer
    var mem: map<nat, Data>
    var exitFlag: bool
    var live: bool
    ghost var owner: map<nat, Place>

    constructor (ring: R.RingBuffer, mem: map<nat, Data>)
      ensures this.ring == ring && this.mem == mem && !exitFlag && !live
      ensures owner == map o | o in ring.contents :: Free
    {
      this.ring, this.mem, exitFlag, live := ring, mem, false, false;
      owner := map o | o in ring.contents :: Free;
    }

    function Read(o: nat): Data
      reads this
    {
      if o in mem then mem[o] else ""
    }

    /** A thread takes the oldest chunk out of the ring. */
    method TakeFree(ghost k: nat) returns (o: nat)
      requires ring.Ok() && ring.popping > 0
      modifies this`owner, ring
      ensures ring.Ok() && ring.sem == old(ring.sem)
      ensures old(ring.contents) != [] && o == old(ring.contents)[0] && ring.contents == old(ring.contents)[1..]
      ensures owner == old(owner)[o := Held(k)]
      ensures ring.popping == old(ring.popping) - 1 && ring.posting == old(ring.posting)
    {
      o := ring.PopStep();
      owner := owner[o := Held(k)];
    }

    /** A thread puts a chunk back into the ring. */
    method GiveBack(o: nat)
      requires ring.Ok() && ring.used < ring.maxCnt
      modifies this`owner, ring, ring.buffer
      ensures ring.Ok() && ring.sem == old(ring.sem)
      ensures ring.contents == old(ring.contents) + [o]
      ensures owner == old(owner)[o := Free]
      ensures ring.popping == old(ring.popping) && ring.posting == old(ring.posting) + 1
    {
      ring.PushStep(o);
      owner := owner[o := Free];
    }
  }

  /** `struct process_info`, with the locals of the child's `pipeline_process`. */
  class ProcessInfo {
    var semJob: nat
    var semResult: nat
    var cmd: Cmd
    var cmdOffs: nat
    var cmdResult: int

    var pc: ClientPc
    var data: Data
    var exitFlag: bool
    var jobs: nat
    ghost var crx: seq<Cmd>

    constructor ()
      ensures AsRecord() == Record(0, 0, cmd, cmdOffs, cmdResult)
      ensures AsClient() == Client(Idle, data, false, 0, [])
    {
      semJob, semResult, jobs, exitFlag, pc, crx := 0, 0, 0, false, Idle, [];
      cmd, cmdOffs, cmdResult, data := STOP, 0, 0, "";
    }

    ghost function AsRecord(): Record
      reads this
    {
      Record(semJob, semResult, cmd, cmdOffs, cmdResult)
    }

    ghost function AsClient(): Client
      reads this
    {
      Client(pc, data, exitFlag, jobs, crx)
    }

    /** The whole effect of one step of the child on everything it can reach. */
    twostate predicate Served(c: Config, k: nat, shared: Shared)
      reads this, shared
    {
      var q, r := old(AsClient()), old(AsRecord());
      && AsClient() == ClientNext(c, k, q, r, old(shared.Read(r.offset)))
      && AsRecord() == ClientRecord(c, k, q, r)
      && shared.mem == (if q.pc.Act? then old(shared.mem)[r.offset := c.act(k, q.jobs, q.seen).0] else old(shared.mem))
      && shared.owner == old(shared.owner)
      && shared.exitFlag == old(shared.exitFlag) && shared.live == old(shared.live)
    }

    // waits for a command from the thread
    method WaitJob(ghost c: Config, ghost k: nat, shared: Shared)
      requires pc.Idle? && semJob > 0
      modifies this
      ensures Served(c, k, shared)
    {
      semJob := semJob - 1;
      pc := Fetch;
    }

    // tells a STOP from a job, and for a job reads the chunk it is about
    method SwitchCmd(ghost c: Config, ghost k: nat, shared: Shared)
      requires pc.Fetch?
      modifies this
      ensures Served(c, k, shared)
    {
      match cmd
      case STOP =>
        exitFlag := true;
        cmdResult := 0;
        pc := Reply;
        crx := crx + [STOP];
      case JOB =>
        data := shared.Read(cmdOffs);
        pc := Act;
        crx := crx + [JOB];
    }

    // what the action leaves in the chunk, and its status
    method FinishAction(c: Config, k: nat, shared: Shared)
      requires pc.Act?
      modifies this, shared
      ensures Served(c, k, shared)
    {
      var (d, status) := c.act(k, jobs, data);
      shared.mem := shared.mem[cmdOffs := d];
      exitFlag := false;
      if status == -1 {
        exitFlag := true;
        status := 0;
      }
      cmdResult := status;
      jobs := jobs + 1;
      pc := Reply;
    }

    // reports that it is done, and leaves if it is to exit
    method PostResult(ghost c: Config, ghost k: nat, shared: Shared)
      requires pc.Reply?
      modifies this
      ensures Served(c, k, shared)
    {
      semResult := semResult + 1;
      pc := if exitFlag then Gone else Idle;
    }
  }

  /** `struct pipeline_module`, with the locals of the thread that runs it. Each
      method is one step of `source_thread`, `process_thread` or
      `finalization_thread`. */
  class PipelineModule {
    const shared: Shared
    const procInfo: ProcessInfo
    const threadMethod: ThreadMethod
    var next: PipelineModule?
    var newCmd: nat
    var result: nat
    var cmd: Cmd
    var dataoffset: nat

    var pc: Pc
    var threadCmd: Cmd
    var threadOffset: nat
    ghost var tx: seq<Cmd>
    ghost var rx: seq<Cmd>
    ghost var inn: seq<Data>
    ghost var acc: seq<Data>

    /** What `pipeline_module_init` sets, and a thread about to enter its loop. */
    constructor (shared: Shared, procInfo: ProcessInfo, threadMethod: ThreadMethod)
      ensures this.shared == shared && this.procInfo == procInfo && this.threadMethod == threadMethod && next == null
      ensures AsMailbox() == Mailbox(0, 1, JOB, dataoffset, [], [], [])
      ensures AsThread() == Thread(if threadMethod.SourceThread? then Top else RecvWait, JOB, threadOffset, [])
    {
      this.shared, this.procInfo, this.threadMethod := shared, procInfo, threadMethod;
      newCmd, result, cmd, dataoffset, next := 0, 1, JOB, 0, null;
      pc, threadCmd, threadOffset := if threadMethod.SourceThread? then Top else RecvWait, JOB, 0;
      tx, rx, inn, acc := [], [], [], [];
    }

    /** The module to send to, as the configuration says. */
    method SetNext(next: PipelineModule)
      modifies this`next
      ensures this.next == next && AsMailbox() == old(AsMailbox()) && AsThread() == old(AsThread())
    {
      this.next := next;
    }

    ghost function AsMailbox(): Mailbox
      reads this
    {
      Mailbox(newCmd, result, cmd, dataoffset, tx, rx, inn)
    }

    ghost function AsThread(): Thread
      reads this
    {
      Thread(pc, threadCmd, threadOffset, acc)
    }

    /** Module `k` of `n`: it runs the function of its place, and only the last one has
        no next. */
    ghost predicate Placed(n: nat, k: nat)
      reads this
    {
      && k < n && 2 <= n && next != this
      && threadMethod == ThreadAt(n, k) && (next == null <==> k + 1 == n)
    }

    /** The whole effect of one step on everything the thread can reach. */
    twostate predicate Stepped(n: nat, k: nat)
      reads this, next, procInfo, shared, shared.ring
    {
      var t, b, r := old(AsThread()), old(AsMailbox()), old(procInfo.AsRecord());
      var free, sem := old(shared.ring.contents), old(shared.ring.sem);
      var o := Taken(t, b, free);
      && AsThread() == ThreadNext(n, k, t, b, r, old(shared.Read(t.offset)), old(shared.exitFlag), old(shared.live), o)
      && AsMailbox() == OwnBox(t, b, old(shared.Read(o)))
      && next == old(next)
      && (next != null ==> next.AsMailbox() == NextBox(t, old(next.AsMailbox()))
                           && next.AsThread() == old(next.AsThread()) && next.next == old(next.next))
      && procInfo.AsRecord() == OwnRecord(t, r) && procInfo.AsClient() == old(procInfo.AsClient())
      && shared.ring.contents == RingNext(t, free) && shared.ring.sem == SemNext(t, sem)
      && shared.mem == (if t.pc.Clear? then old(shared.mem)[t.offset := Cleared(old(shared.Read(t.offset)))]
                        else old(shared.mem))
      && shared.owner == OwnerNext(k, t, b, free, old(shared.owner))
      && shared.exitFlag == old(shared.exitFlag) && shared.live == old(shared.live)
    }

    // the source's loop test: stop if the exit flag is up
    method TestExit(ghost n: nat, ghost k: nat)
      requires Placed(n, k) && pc.Top?
      modifies this
      ensures Stepped(n, k)
    {
      if shared.exitFlag { pc, threadCmd := SendWait, STOP; } else { pc := Gate; }
    }

    // the source starts a round only when the module is live, with its own command
    method TestLive(ghost n: nat, ghost k: nat)
      requires Placed(n, k) && pc.Gate?
      modifies this
      ensures Stepped(n, k)
    {
      if shared.live { pc, threadCmd := PopWait, cmd; } else { pc := Top; }
    }

    // waits until the ring shows a free chunk
    method WaitRing(ghost n: nat, ghost k: nat)
      requires Placed(n, k) && shared.ring.Ok() && pc.PopWait? && shared.ring.sem > 0
      modifies this, shared.ring
      ensures shared.ring.Ok() && Stepped(n, k)
      ensures shared.ring.popping == old(shared.ring.popping) + 1 && shared.ring.posting == old(shared.ring.posting)
    {
      shared.ring.SemWaitStep();
      pc := PopLock;
    }

    /** The oldest free chunk comes into the thread's hands. */
    method TakeChunk(ghost k: nat)
      requires shared.ring.Ok() && pc.PopLock? && shared.ring.popping > 0
      modifies this, shared`owner, shared.ring
      ensures shared.ring.Ok() && shared.ring.sem == old(shared.ring.sem) && next == old(next)
      ensures var free := old(shared.ring.contents);
              && free != [] && shared.ring.contents == free[1..]
              && AsThread() == old(AsThread()).(pc := JobWrite, offset := free[0])
              && AsMailbox() == old(AsMailbox()).(inn := old(inn) + [old(shared.Read(shared.ring.contents[0]))])
              && shared.owner == old(shared.owner)[free[0] := Held(k)]
      ensures shared.ring.popping == old(shared.ring.popping) - 1 && shared.ring.posting == old(shared.ring.posting)
    {
      threadOffset := shared.TakeFree(k);
      inn := inn + [shared.Read(threadOffset)];
      pc := JobWrite;
    }

    // takes the oldest chunk out of the ring, under the ring's mutex
    method PopRing(ghost n: nat, ghost k: nat)
      requires Placed(n, k) && shared.ring.Ok() && pc.PopLock? && shared.ring.popping > 0
      modifies this, shared, shared.ring
      ensures shared.ring.Ok() && Stepped(n, k)
      ensures shared.ring.popping == old(shared.ring.popping) - 1 && shared.ring.posting == old(shared.ring.posting)
    {
      TakeChunk(k);
    }

    // waits for a command
    method WaitNewCmd(ghost n: nat, ghost k: nat)
      requires Placed(n, k) && pc.RecvWait? && newCmd > 0
      modifies this
      ensures Stepped(n, k)
    {
      newCmd := newCmd - 1;
      pc := RecvRead;
    }

    /** The command and the chunk leave the mailbox. */
    method TakeCmd(ghost k: nat)
      requires pc.RecvRead?
      modifies this, shared`owner
      ensures AsThread() == old(AsThread()).(pc := RecvPost, cmd := old(cmd), offset := old(dataoffset))
      ensures AsMailbox() == OwnBox(old(AsThread()), old(AsMailbox()), old(shared.Read(dataoffset)))
      ensures shared.owner == if cmd.JOB? then old(shared.owner)[dataoffset := Held(k)] else old(shared.owner)
      ensures next == old(next)
    {
      ghost var taken := shared.Read(dataoffset);
      threadCmd, threadOffset, pc := cmd, dataoffset, RecvPost;
      rx := rx + [cmd];
      inn := if cmd.JOB? then inn + [taken] else inn;
      shared.owner := if cmd.JOB? then shared.owner[dataoffset := Held(k)] else shared.owner;
    }

    // takes command and chunk out of the mailbox
    method ReadCmd(ghost n: nat, ghost k: nat)
      requires Placed(n, k) && pc.RecvRead?
      modifies this, shared
      ensures Stepped(n, k)
    {
      TakeCmd(k);
    }

    // frees the mailbox; a STOP ends the loop
    method PostResult(ghost n: nat, ghost k: nat)
      requires Placed(n, k) && pc.RecvPost?
      modifies this
      ensures Stepped(n, k)
    {
      result := result + 1;
      if threadMethod.FinalizationThread? {
        pc := if threadCmd.STOP? then Done else Clear;
      } else {
        pc := if threadCmd.STOP? then SendWait else JobWrite;
      }
    }

    // hands the command to the child; a STOP leaves the old chunk's offset there
    method WriteJob(ghost n: nat, ghost k: nat)
      requires Placed(n, k) && pc.JobWrite?
      modifies this, procInfo
      ensures Stepped(n, k)
    {
      procInfo.cmd := threadCmd;
      if threadCmd.JOB? { procInfo.cmdOffs := threadOffset; }
      pc := JobPost;
    }

    // wakes the child
    method PostJob(ghost n: nat, ghost k: nat)
      requires Placed(n, k) && pc.JobPost?
      modifies this, procInfo
      ensures Stepped(n, k)
    {
      procInfo.semJob := procInfo.semJob + 1;
      pc := JobWait;
    }

    // waits until the child is done
    method WaitResult(ghost n: nat, ghost k: nat)
      requires Placed(n, k) && pc.JobWait? && procInfo.semResult > 0
      modifies this, procInfo
      ensures Stepped(n, k)
    {
      procInfo.semResult := procInfo.semResult - 1;
      if threadCmd.STOP? {
        pc := Done;
      } else if threadMethod.SourceThread? {
        acc := acc + [shared.Read(threadOffset)];
        pc := SendWait;
      } else {
        pc := Verdict;
      }
    }

    // drops the chunk if the child reported anything but 0
    method TestVerdict(ghost n: nat, ghost k: nat)
      requires Placed(n, k) && pc.Verdict?
      modifies this
      ensures Stepped(n, k)
    {
      if procInfo.cmdResult != 0 {
        pc := PushLock;
      } else {
        acc := acc + [shared.Read(threadOffset)];
        pc := SendWait;
      }
    }

    // waits until the next module's mailbox is free
    method WaitNext(ghost n: nat, ghost k: nat)
      requires Placed(n, k) && pc.SendWait? && next != null && next.result > 0
      modifies this, next
      ensures Stepped(n, k)
    {
      next.result := next.result - 1;
      pc := SendWrite;
    }

    /** A command is put into the mailbox; a STOP leaves the old chunk's offset there. */
    method PutCmd(command: Cmd, offset: nat)
      modifies this`cmd, this`dataoffset, this`tx
      ensures AsMailbox() == old(AsMailbox()).(cmd := command, tx := old(tx) + [command],
                                               dataoffset := if command.JOB? then offset else old(dataoffset))
    {
      cmd := command;
      tx := tx + [command];
      if command.JOB? { dataoffset := offset; }
    }

    // writes command and chunk into the next module's mailbox
    method WriteNext(ghost n: nat, ghost k: nat)
      requires Placed(n, k) && pc.SendWrite? && next != null
      modifies this, next
      ensures Stepped(n, k)
    {
      next.PutCmd(threadCmd, threadOffset);
      pc := SendPost;
    }

    // announces the command to the next module
    method PostNext(ghost n: nat, ghost k: nat)
      requires Placed(n, k) && pc.SendPost? && next != null
      modifies this, next, shared
      ensures Stepped(n, k)
    {
      next.newCmd := next.newCmd + 1;
      if threadCmd.STOP? {
        pc := JobWrite;
      } else {
        shared.owner := shared.owner[threadOffset := Mail(k + 1)];
        pc := if threadMethod.SourceThread? then Top else RecvWait;
      }
    }

    // the finalizer cuts the chunk's text short
    method ClearChunk(ghost n: nat, ghost k: nat)
      requires Placed(n, k) && pc.Clear?
      modifies this, shared
      ensures Stepped(n, k)
    {
      shared.mem := shared.mem[threadOffset := Cleared(shared.Read(threadOffset))];
      pc := PushLock;
    }

    // puts the chunk back into the ring, under the ring's mutex
    method PushRing(ghost n: nat, ghost k: nat)
      requires Placed(n, k) && shared.ring.Ok() && pc.PushLock? && shared.ring.used < shared.ring.maxCnt
      modifies this, shared, shared.ring, shared.ring.buffer
      ensures shared.ring.Ok() && Stepped(n, k)
      ensures shared.ring.popping == old(shared.ring.popping) && shared.ring.posting == old(shared.ring.posting) + 1
    {
      shared.GiveBack(threadOffset);
      pc := PushPost;
    }

    // lets the ring show it
    method PostRing(ghost n: nat, ghost k: nat)
      requires Placed(n, k) && shared.ring.Ok() && pc.PushPost? && shared.ring.posting > 0
      modifies this, shared.ring
      ensures shared.ring.Ok() && Stepped(n, k)
      ensures shared.ring.popping == old(shared.ring.popping) && shared.ring.posting == old(shared.ring.posting) - 1
    {
      shared.ring.SemPostStep();
      pc := RecvWait;
    }

    /** The thread can move, as far as it can tell itself. */
    ghost predicate Ready()
      reads this, next, procInfo, shared, shared.ring
    {
      match pc
      case PopWait => shared.ring.sem > 0
      case PopLock => shared.ring.popping > 0
      case RecvWait => newCmd > 0
      case JobWait => procInfo.semResult > 0
      case SendWait => next != null && next.result > 0
      case SendWrite => next != null
      case SendPost => next != null
      case PushLock => shared.ring.used < shared.ring.maxCnt
      case PushPost => shared.ring.posting > 0
      case Done => false
      case _ => true
    }

    // the steps with the module's own mailbox
    method Receive(ghost n: nat, ghost k: nat)
      requires Placed(n, k) && Ready() && (pc.RecvWait? || pc.RecvRead? || pc.RecvPost?)
      modifies this, shared
      ensures Stepped(n, k)
    {
      match pc
      case RecvWait => WaitNewCmd(n, k);
      case RecvRead => ReadCmd(n, k);
      case RecvPost => PostResult(n, k);
    }

    // the steps with the child process
    method Employ(ghost n: nat, ghost k: nat)
      requires Placed(n, k) && Ready() && (pc.JobWrite? || pc.JobPost? || pc.JobWait? || pc.Verdict?)
      modifies this, procInfo
      ensures Stepped(n, k)
    {
      match pc
      case JobWrite => WriteJob(n, k);
      case JobPost => PostJob(n, k);
      case JobWait => WaitResult(n, k);
      case Verdict => TestVerdict(n, k);
    }

    // the steps with the next module's mailbox
    method Send(ghost n: nat, ghost k: nat)
      requires Placed(n, k) && Ready() && (pc.SendWait? || pc.SendWrite? || pc.SendPost?)
      modifies this, next, shared
      ensures Stepped(n, k)
    {
      match pc
      case SendWait => WaitNext(n, k);
      case SendWrite => WriteNext(n, k);
      case SendPost => PostNext(n, k);
    }

    // the steps with the ring
    method UseRing(ghost n: nat, ghost k: nat)
      requires Placed(n, k) && shared.ring.Ok() && Ready()
      requires pc.PopWait? || pc.PopLock? || pc.PushLock? || pc.PushPost?
      modifies this, shared, shared.ring, shared.ring.buffer
      ensures shared.ring.Ok() && Stepped(n, k)
      ensures shared.ring.popping + Bit(old(pc).PopLock?) == old(shared.ring.popping) + Bit(old(pc).PopWait?)
      ensures shared.ring.posting + Bit(old(pc).PushPost?) == old(shared.ring.posting) + Bit(old(pc).PushLock?)
    {
      match pc
      case PopWait => WaitRing(n, k);
      case PopLock => PopRing(n, k);
      case PushLock => PushRing(n, k);
      case PushPost => PostRing(n, k);
    }

    // every step that leaves the ring alone
    method StepAside(ghost n: nat, ghost k: nat)
      requires Placed(n, k) && Ready()
      requires !pc.PopWait? && !pc.PopLock? && !pc.PushLock? && !pc.PushPost?
      modifies this, next, procInfo, shared
      ensures Stepped(n, k)
    {
      match pc
      case Top => TestExit(n, k);
      case Gate => TestLive(n, k);
      case RecvWait => Receive(n, k);
      case RecvRead => Receive(n, k);
      case RecvPost => Receive(n, k);
      case JobWrite => Employ(n, k);
      case JobPost => Employ(n, k);
      case JobWait => Employ(n, k);
      case Verdict => Employ(n, k);
      case SendWait => Send(n, k);
      case SendWrite => Send(n, k);
      case SendPost => Send(n, k);
      case Clear => ClearChunk(n, k);
    }

    /** The step the program counter names. */
    method Step(ghost n: nat, ghost k: nat)
      requires Placed(n, k) && shared.ring.Ok() && Ready()
      modifies this, next, procInfo, shared, shared.ring, shared.ring.buffer
      ensures shared.ring.Ok() && Stepped(n, k)
      ensures shared.ring.popping + Bit(old(pc).PopLock?) == old(shared.ring.popping) + Bit(old(pc).PopWait?)
      ensures shared.ring.posting + Bit(old(pc).PushPost?) == old(shared.ring.posting) + Bit(old(pc).PushLock?)
    {
      if pc.PopWait? || pc.PopLock? || pc.PushLock? || pc.PushPost? {
        UseRing(n, k);
      } else {
        StepAside(n, k);
      }
    }
  }

  /** A started pipeline: its modules in chain order. */
  class Pipeline {
    const config: Config
    const modules: seq<PipelineModule>
    const shared: Shared

    constructor (config: Config, modules: seq<PipelineModule>, shared: Shared)
      ensures this.config == config && this.modules == modules && this.shared == shared
    {
      this.config, this.modules, this.shared := config, modules, shared;
    }

    /** The chain, and that its modules share what they should and nothing else. */
    ghost predicate Chain()
      reads this, modules
    {
      && 2 <= |modules|
      && (forall i, j :: 0 <= i < j < |modules| ==>
            modules[i] != modules[j] && modules[i].procInfo != modules[j].procInfo)
      && (forall i :: 0 <= i < |modules| ==> modules[i].shared == shared)
      && (forall i :: 0 <= i < |modules| - 1 ==> modules[i].next == modules[i + 1])
      && modules[|modules| - 1].next == null
    }

    /** Every module runs the function of its place. */
    ghost predicate InPlace()
      reads this, modules
    {
      forall i :: 0 <= i < |modules| ==> modules[i].threadMethod == ThreadAt(|modules|, i)
    }

    /** What the step methods rely on. */
    ghost predicate Shape()
      reads this, modules
    {
      Chain() && InPlace()
    }

    ghost function Procs(): seq<ProcessInfo> {
      seq(|modules|, i requires 0 <= i < |modules| => modules[i].procInfo)
    }

    ghost function Mailboxes(): seq<Mailbox>
      reads modules
    {
      seq(|modules|, i requires 0 <= i < |modules| reads modules => modules[i].AsMailbox())
    }

    ghost function Threads(): seq<Thread>
      reads modules
    {
      seq(|modules|, i requires 0 <= i < |modules| reads modules => modules[i].AsThread())
    }

    ghost function Records(): seq<Record>
      reads Procs()
    {
      seq(|modules|, i requires 0 <= i < |modules| reads Procs() => Procs()[i].AsRecord())
    }

    ghost function Clients(): seq<Client>
      reads Procs()
    {
      seq(|modules|, i requires 0 <= i < |modules| reads Procs() => Procs()[i].AsClient())
    }

    /** The protocol state the objects represent. */
    ghost function Abs(): State
      reads modules, Procs(), shared, shared.ring
    {
      State(Mailboxes(), Threads(), Records(), Clients(), shared.ring.contents, shared.ring.sem,
            shared.mem, shared.exitFlag, shared.live, shared.owner)
    }

    /** What a step of module `k` leaves of the chain and its mailboxes. */
    twostate lemma LiftMailboxes(k: nat)
      requires k < |modules| && old(Shape())
      requires modules[k].Stepped(|modules|, k)
      requires forall j :: 0 <= j < |modules| && j != k && j != k + 1 ==> unchanged(modules[j])
      requires ThreadEnabled(old(Abs()), k)
      ensures Shape() && Mailboxes() == ThreadStep(old(Abs()), k).box
    {
      StepShape(old(Abs()), k);
    }

    /** A step of module `k` is a step of thread `k` of the protocol. */
    twostate lemma Lift(k: nat)
      requires k < |modules| && old(Shape())
      requires modules[k].Stepped(|modules|, k)
      requires forall j :: 0 <= j < |modules| && j != k && j != k + 1 ==> unchanged(modules[j])
      requires forall j :: 0 <= j < |modules| && j != k ==> unchanged(modules[j].procInfo)
      requires ThreadEnabled(old(Abs()), k)
      ensures Shape() && Abs() == ThreadStep(old(Abs()), k)
    {
      LiftMailboxes(k);
      var s, s' := old(Abs()), Abs();
      var e := ThreadStep(s, k);
      assert s'.thr == e.thr;
      assert s'.rec == e.rec;
      assert s'.cli == e.cli;
    }

    twostate lemma LiftChild(k: nat)
      requires k + 1 < |modules| && old(Shape())
      requires modules[k].procInfo.Served(config, k, shared)
      requires unchanged(shared.ring)
      requires forall j :: 0 <= j < |modules| ==> unchanged(modules[j])
      requires forall j :: 0 <= j < |modules| && j != k ==> unchanged(modules[j].procInfo)
      requires ClientEnabled(old(Abs()), k)
      ensures Shape() && Abs() == ClientStep(config, old(Abs()), k)
    {
      var s, s' := old(Abs()), Abs();
      var e := ClientStep(config, s, k);
      assert s'.thr == e.thr;
      assert s'.box == e.box;
      assert s'.rec == e.rec;
      assert s'.cli == e.cli;
    }

    /** The ring's operations in progress are those of the threads. */
    ghost predicate RingOk()
      reads modules, shared.ring, shared.ring.buffer
      requires 2 <= |modules|
    {
      && shared.ring.Ok()
      && shared.ring.popping == Bit(modules[0].pc.PopLock?)
      && shared.ring.posting == Posting(Threads())
    }

    /** What the module can tell itself follows from what the protocol says. */
    lemma ThreadIsReady(k: nat)
      requires Shape() && RingOk() && k < |modules| && ThreadEnabled(Abs(), k)
      requires modules[k].pc.PopWait? || modules[k].pc.PopLock? ==> k == 0
      requires modules[k].pc.PushLock? ==> shared.ring.used < shared.ring.maxCnt
      ensures modules[k].Placed(|modules|, k) && modules[k].Ready()
    {
      assert Threads()[k] == modules[k].AsThread() && Mailboxes()[k] == modules[k].AsMailbox();
      assert Procs()[k] == modules[k].procInfo;
      assert k + 1 < |modules| ==> modules[k].next == modules[k + 1] && modules[k + 1] != modules[k];
      assert k + 1 == |modules| ==> modules[k].next == null;
      if modules[k].pc.PushPost? { PostingAt(Threads(), k); }
    }

    /** One step of thread `k`. */
    method StepThread(k: nat)
      requires Shape() && RingOk() && k < |modules| && ThreadEnabled(Abs(), k)
      requires modules[k].pc.PopWait? || modules[k].pc.PopLock? ==> k == 0
      requires modules[k].pc.PushLock? ==> shared.ring.used < shared.ring.maxCnt
      modifies modules, Procs(), shared, shared.ring, shared.ring.buffer
      ensures Shape() && shared.ring.Ok() && Abs() == ThreadStep(old(Abs()), k)
      ensures var pc := old(modules[k].pc);
              && shared.ring.popping + Bit(pc.PopLock?) == old(shared.ring.popping) + Bit(pc.PopWait?)
              && shared.ring.posting + Bit(pc.PushPost?) == old(shared.ring.posting) + Bit(pc.PushLock?)
    {
      ThreadIsReady(k);
      assert Procs()[k] == modules[k].procInfo;
      assert k + 1 < |modules| ==> modules[k].next == modules[k + 1];
      modules[k].Step(|modules|, k);
      Lift(k);
    }

    /** One step of the child of stage `k`. */
    method StepChild(k: nat)
      requires Shape() && k + 1 < |modules| && ClientEnabled(Abs(), k)
      modifies modules[k].procInfo, shared
      ensures Shape() && Abs() == ClientStep(config, old(Abs()), k)
    {
      var p := modules[k].procInfo;
      assert p == Procs()[k] && Clients()[k] == p.AsClient() && Records()[k] == p.AsRecord();
      match p.pc {
        case Idle => p.WaitJob(config, k, shared);
        case Fetch => p.SwitchCmd(config, k, shared);
        case Act => p.FinishAction(config, k, shared);
        case Reply => p.PostResult(config, k, shared);
      }
      LiftChild(k);
    }

    /** The invariant of the whole pipeline. */
    ghost predicate Ok()
      reads this, modules, Procs(), shared, shared.ring, shared.ring.buffer
    {
      Shape() && RingOk() && Inv(config, Abs()) && |shared.owner.Keys| <= shared.ring.maxCnt
    }

    /** What the protocol's invariant says about the ring as a thread meets it. */
    lemma RingReady(k: nat)
      requires Ok() && k < |modules|
      ensures modules[k].pc.PopWait? || modules[k].pc.PopLock? ==> k == 0
      ensures modules[k].pc.PushLock? ==> shared.ring.used < shared.ring.maxCnt
    {
      assert Threads()[k] == modules[k].AsThread();
      assert Role(|modules|, k, Abs().thr[k]);
      if modules[k].pc.PushLock? { RoomToPush(config, Abs(), k); }
    }

    /** One step of thread `k`, with the ring's operations in progress. */
    method AdvanceThread(k: nat)
      requires Shape() && RingOk() && k < |modules| && ThreadEnabled(Abs(), k)
      requires modules[k].pc.PopWait? || modules[k].pc.PopLock? ==> k == 0
      requires modules[k].pc.PushLock? ==> shared.ring.used < shared.ring.maxCnt
      modifies modules, Procs(), shared, shared.ring, shared.ring.buffer
      ensures Shape() && RingOk() && Abs() == ThreadStep(old(Abs()), k)
    {
      ghost var s := Abs();
      assert s.thr[0] == modules[0].AsThread() && s.thr[k] == modules[k].AsThread();
      InProgress(s, k);
      StepThread(k);
      assert Abs().thr == Threads() && Threads()[0] == modules[0].AsThread();
    }

    /** A thread about to use the ring finds it as the protocol says. */
    ghost predicate RingMet(a: Actor)
      reads modules, shared.ring
    {
      a.Module? && a.k < |modules| ==>
        && (modules[a.k].pc.PopWait? || modules[a.k].pc.PopLock? ==> a.k == 0)
        && (modules[a.k].pc.PushLock? ==> shared.ring.used < shared.ring.maxCnt)
    }

    /** One step of the child of stage `k`; the ring is not touched. */
    method AdvanceChild(k: nat)
      requires Shape() && RingOk() && ClientEnabled(Abs(), k)
      modifies Procs(), shared
      ensures Shape() && RingOk() && Abs() == ClientStep(config, old(Abs()), k)
    {
      assert Procs()[k] == modules[k].procInfo;
      StepChild(k);
      assert Threads() == old(Threads());
    }

    /** Somebody raises the exit flag. */
    method RaiseExitFlag()
      requires Shape() && RingOk()
      modifies shared
      ensures Shape() && RingOk() && Abs() == old(Abs()).(exit := true)
    {
      shared.exitFlag := true;
      assert Threads() == old(Threads());
    }

    /** The pipeline thread switches the modules to LIVE. */
    method SwitchLive()
      requires Shape() && RingOk()
      modifies shared
      ensures Shape() && RingOk() && Abs() == old(Abs()).(live := true)
    {
      shared.live := true;
      assert Threads() == old(Threads());
    }

    method AdvanceAny(a: Actor)
      requires Shape() && RingOk() && Enabled(Abs(), a) && RingMet(a)
      modifies modules, Procs(), shared, shared.ring, shared.ring.buffer
      ensures Shape() && RingOk() && Abs() == Step(config, old(Abs()), a)
    {
      match a
      case Module(k) => AdvanceThread(k);
      case Child(k) => AdvanceChild(k);
      case RaiseExit => RaiseExitFlag();
      case GoLive => SwitchLive();
    }

    /** Lets one actor move. */
    method Advance(a: Actor)
      requires Ok() && Enabled(Abs(), a)
      modifies modules, Procs(), shared, shared.ring, shared.ring.buffer
      ensures Ok() && Abs() == Step(config, old(Abs()), a)
    {
      if a.Module? { RingReady(a.k); }
      StepKeepsInv(config, Abs(), a);
      AdvanceAny(a);
    }
  }

  /** Any interleaving of the threads and children, on the objects: every module's
      mailbox log, every child and the ring end up as the protocol says, so all that
      is proved about reachable states holds of them. */
  method Execute(p: Pipeline, schedule: seq<Actor>)
    requires p.Ok() && Legal(p.config, p.Abs(), schedule)
    modifies p.modules, p.Procs(), p.shared, p.shared.ring, p.shared.ring.buffer
    ensures p.Ok() && p.Abs() == Run(p.config, old(p.Abs()), schedule)
  {
    var i := 0;
    while i < |schedule|
      invariant 0 <= i <= |schedule|
      invariant p.Ok() && Legal(p.config, p.Abs(), schedule[i..])
      invariant Run(p.config, p.Abs(), schedule[i..]) == Run(p.config, old(p.Abs()), schedule)
    {
      assert schedule[i..][1..] == schedule[i + 1..];
      p.Advance(schedule[i]);
      i := i + 1;
    }
  }

  /** How a step changes the ring operations in progress. */
  lemma InProgress(s: State, k: nat)
    requires s.WellFormed() && ThreadEnabled(s, k)
    requires s.thr[k].pc.PopWait? || s.thr[k].pc.PopLock? ==> k == 0
    ensures var s', pc := ThreadStep(s, k), s.thr[k].pc;
            && Bit(s'.thr[0].pc.PopLock?) + Bit(pc.PopLock?) == Bit(s.thr[0].pc.PopLock?) + Bit(pc.PopWait?)
            && Posting(s'.thr) + Bit(pc.PushPost?) == Posting(s.thr) + Bit(pc.PushLock?)
  {
    PostingUpdate(s.thr, k, ThreadStep(s, k).thr[k]);
  }

  lemma {:induction false} PostingAt(thr: seq<Thread>, k: nat)
    requires k < |thr| && thr[k].pc.PushPost?
    ensures Posting(thr) > 0
  {
    if k < |thr| - 1 { PostingAt(thr[..|thr| - 1], k); }
  }
}
