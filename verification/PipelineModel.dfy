/** The processing pipeline as a state machine.

    A pipeline is a chain of modules: module 0 runs `source_thread`, the last
    one runs `finalization_thread`, every module between them `process_thread`.
    Every semaphore operation, every critical section of the ring and every
    group of plain writes between two of them is one step, and the steps of
    different threads and child processes interleave freely. */
module PipelineModel {
  import opened Sequences

  /** The contents of one shared-memory chunk. */
  type Data = string

  datatype Cmd = STOP | JOB

  /** The function a module's thread runs, as chosen by the module's type and mode. */
  datatype ThreadMethod = SourceThread | InitialThread | ProcessThread | FinalizationThread | NoThread

  /** The function that place `k` in a chain of `n` modules calls for. */
  function ThreadAt(n: nat, k: nat): ThreadMethod {
    if k == 0 then SourceThread else if k + 1 == n then FinalizationThread else ProcessThread
  }

  /** `new_cmd`, `result`, `cmd` and `dataoffset` of a pipeline module.
      Auxiliary: `tx` and `rx` are the commands written into and read out of the
      mailbox, `inn` the contents of the chunks that came with the JOBs read. */
  datatype Mailbox = Mailbox(newCmd: nat, result: nat, cmd: Cmd, dataoffset: nat,
                             tx: seq<Cmd>, rx: seq<Cmd>, inn: seq<Data>)

  /** Program points of the three thread functions. */
  datatype Pc =
    | Top        // source: about to look at the exit flag
    | Gate       // source: about to look whether the module is live
    | PopWait    // source: waiting until the ring shows a chunk
    | PopLock    // source: taking it, under the ring's mutex
    | RecvWait   // waiting for a command
    | RecvRead   // taking command and chunk over
    | RecvPost   // freeing the mailbox
    | JobWrite   // filling in the process record
    | JobPost    // waking the child
    | JobWait    // waiting for the child
    | Verdict    // process: looking at the child's report
    | SendWait   // waiting for the next module's mailbox
    | SendWrite  // filling it in
    | SendPost   // announcing the command
    | Clear      // finalizer: cutting the chunk's text short
    | PushLock   // putting the chunk back, under the ring's mutex
    | PushPost   // letting the ring show it
    | Done       // returned

  /** A thread's program counter and its locals `cmd` and `dataoffset`.
      Auxiliary: `acc` lists the chunk contents the thread decided to pass on. */
  datatype Thread = Thread(pc: Pc, cmd: Cmd, offset: nat, acc: seq<Data>)

  /** The shared process record of a child. */
  datatype Record = Record(semJob: nat, semResult: nat, cmd: Cmd, offset: nat, result: int)

  /** Program points of `pipeline_process`: waiting for a job, switching on the
      command, storing what the action computed, posting the result, returned. */
  datatype ClientPc = Idle | Fetch | Act | Reply | Gone

  /** A child process: `seen` is the chunk it read, `exiting` its `exit_flag`.
      Auxiliary: `jobs` counts finished actions, `crx` lists the commands seen. */
  datatype Client = Client(pc: ClientPc, seen: Data, exiting: bool, jobs: nat, crx: seq<Cmd>)

  /** Where a chunk is: in the ring, with a thread, or in a mailbox. */
  datatype Place = Free | Held(thread: nat) | Mail(box: nat)

  /** `free` and `sem` are the ring's contents and semaphore, `mem` the chunks.
      Auxiliary: `owner` follows each chunk from place to place. */
  datatype State = State(
    box: seq<Mailbox>, thr: seq<Thread>, rec: seq<Record>, cli: seq<Client>,
    free: seq<nat>, sem: nat, mem: map<nat, Data>,
    exit: bool, live: bool, owner: map<nat, Place>)
  {
    predicate WellFormed() {
      2 <= |thr| == |box| == |rec| == |cli|
    }

    function Read(o: nat): Data {
      if o in mem then mem[o] else ""
    }

    function Last(): nat
      requires WellFormed()
    {
      |thr| - 1
    }
  }

  /** What the child of stage `k` makes of its `j`-th job: new chunk contents and
      a status. Every (stage, job) pair happens at most once, so an arbitrary
      function covers every behaviour of every child, stateful or not. */
  datatype Config = Config(act: (nat, nat, Data) -> (Data, int))

  datatype Actor = Module(k: nat) | Child(k: nat) | RaiseExit | GoLive

  /** A text cut short before its first character. */
  function Cleared(d: Data): Data {
    if d == "" then d else ['\0'] + d[1..]
  }

  // ------------------------------------------------- one step of a thread

  /** Whether thread `k` can move: only the four semaphore waits block. */
  predicate ThreadEnabled(s: State, k: nat)
    requires s.WellFormed()
  {
    k < |s.thr| &&
    match s.thr[k].pc
    case PopWait => s.sem > 0
    case PopLock => s.free != []
    case RecvWait => s.box[k].newCmd > 0
    case JobWait => s.rec[k].semResult > 0
    case SendWait => k < s.Last() && s.box[k + 1].result > 0
    case SendWrite => k < s.Last()
    case SendPost => k < s.Last()
    case Done => false
    case _ => true
  }

  /** The thread itself: `b` is its mailbox, `r` its process record, `d` the
      contents of the chunk at its offset, `head` the first chunk of the ring. */
  function ThreadNext(n: nat, k: nat, t: Thread, b: Mailbox, r: Record, d: Data,
                      exit: bool, live: bool, head: nat): Thread
  {
    match t.pc
    case Top => if exit then t.(pc := SendWait, cmd := STOP) else t.(pc := Gate)
    case Gate => if live then t.(pc := PopWait, cmd := b.cmd) else t.(pc := Top)
    case PopWait => t.(pc := PopLock)
    case PopLock => t.(pc := JobWrite, offset := head)
    case RecvWait => t.(pc := RecvRead)
    case RecvRead => t.(pc := RecvPost, cmd := b.cmd, offset := b.dataoffset)
    case RecvPost =>
      if k + 1 == n then t.(pc := if t.cmd.STOP? then Done else Clear)
      else t.(pc := if t.cmd.STOP? then SendWait else JobWrite)
    case JobWrite => t.(pc := JobPost)
    case JobPost => t.(pc := JobWait)
    case JobWait =>
      if t.cmd.STOP? then t.(pc := Done)
      else if k == 0 then t.(pc := SendWait, acc := t.acc + [d])
      else t.(pc := Verdict)
    case Verdict =>
      if r.result != 0 then t.(pc := PushLock) else t.(pc := SendWait, acc := t.acc + [d])
    case SendWait => t.(pc := SendWrite)
    case SendWrite => t.(pc := SendPost)
    case SendPost => t.(pc := if t.cmd.STOP? then JobWrite else if k == 0 then Top else RecvWait)
    case Clear => t.(pc := PushLock)
    case PushLock => t.(pc := PushPost)
    case PushPost => t.(pc := RecvWait)
    case Done => t
  }

  /** Its own mailbox; `d` is the contents of the chunk the thread takes over. */
  function OwnBox(t: Thread, b: Mailbox, d: Data): Mailbox {
    match t.pc
    case PopLock => b.(inn := b.inn + [d])
    case RecvWait => if b.newCmd > 0 then b.(newCmd := b.newCmd - 1) else b
    case RecvRead => b.(rx := b.rx + [b.cmd], inn := if b.cmd.JOB? then b.inn + [d] else b.inn)
    case RecvPost => b.(result := b.result + 1)
    case _ => b
  }

  /** The next module's mailbox. */
  function NextBox(t: Thread, b: Mailbox): Mailbox {
    match t.pc
    case SendWait => if b.result > 0 then b.(result := b.result - 1) else b
    case SendWrite =>
      b.(cmd := t.cmd, dataoffset := if t.cmd.JOB? then t.offset else b.dataoffset, tx := b.tx + [t.cmd])
    case SendPost => b.(newCmd := b.newCmd + 1)
    case _ => b
  }

  /** Its process record. */
  function OwnRecord(t: Thread, r: Record): Record {
    match t.pc
    case JobWrite => r.(cmd := t.cmd, offset := if t.cmd.JOB? then t.offset else r.offset)
    case JobPost => r.(semJob := r.semJob + 1)
    case JobWait => if r.semResult > 0 then r.(semResult := r.semResult - 1) else r
    case _ => r
  }

  /** The chunk a step takes over: out of the ring or out of the mailbox. */
  function Taken(t: Thread, b: Mailbox, free: seq<nat>): nat {
    if t.pc.PopLock? && free != [] then free[0] else b.dataoffset
  }

  function RingNext(t: Thread, free: seq<nat>): seq<nat> {
    match t.pc
    case PopLock => if free != [] then free[1..] else free
    case PushLock => free + [t.offset]
    case _ => free
  }

  function SemNext(t: Thread, sem: nat): nat {
    match t.pc
    case PopWait => if sem > 0 then sem - 1 else sem
    case PushPost => sem + 1
    case _ => sem
  }

  function OwnerNext(k: nat, t: Thread, b: Mailbox, free: seq<nat>, owner: map<nat, Place>): map<nat, Place> {
    match t.pc
    case PopLock => owner[Taken(t, b, free) := Held(k)]
    case RecvRead => if b.cmd.JOB? then owner[b.dataoffset := Held(k)] else owner
    case SendPost => if t.cmd.JOB? then owner[t.offset := Mail(k + 1)] else owner
    case PushLock => owner[t.offset := Free]
    case _ => owner
  }

  function ThreadStep(s: State, k: nat): (s': State)
    requires s.WellFormed() && ThreadEnabled(s, k)
  {
    var t, b := s.thr[k], s.box[k];
    var o := Taken(t, b, s.free);
    var box := s.box[k := OwnBox(t, b, s.Read(o))];
    s.(thr := s.thr[k := ThreadNext(|s.thr|, k, t, b, s.rec[k], s.Read(t.offset), s.exit, s.live, o)],
       box := if k < s.Last() then box[k + 1 := NextBox(t, s.box[k + 1])] else box,
       rec := s.rec[k := OwnRecord(t, s.rec[k])],
       free := RingNext(t, s.free), sem := SemNext(t, s.sem),
       mem := if t.pc.Clear? then s.mem[t.offset := Cleared(s.Read(t.offset))] else s.mem,
       owner := OwnerNext(k, t, b, s.free, s.owner))
  }

  // -------------------------------------------------- one step of a child

  predicate ClientEnabled(s: State, k: nat)
    requires s.WellFormed()
  {
    k < s.Last() && !s.cli[k].pc.Gone? && (s.cli[k].pc.Idle? ==> s.rec[k].semJob > 0)
  }

  /** `cmd_result` for an action status: -1 ends the child and is reported as 0. */
  function Report(status: int): int {
    if status == -1 then 0 else status
  }

  /** The child itself; `d` is the contents of the chunk its record names. */
  function ClientNext(c: Config, k: nat, q: Client, r: Record, d: Data): Client {
    match q.pc
    case Idle => q.(pc := Fetch)
    case Fetch =>
      if r.cmd.STOP? then q.(pc := Reply, exiting := true, crx := q.crx + [STOP])
      else q.(pc := Act, seen := d, crx := q.crx + [JOB])
    case Act => q.(pc := Reply, exiting := c.act(k, q.jobs, q.seen).1 == -1, jobs := q.jobs + 1)
    case Reply => q.(pc := if q.exiting then Gone else Idle)
    case Gone => q
  }

  /** Its process record. */
  function ClientRecord(c: Config, k: nat, q: Client, r: Record): Record {
    match q.pc
    case Idle => if r.semJob > 0 then r.(semJob := r.semJob - 1) else r
    case Fetch => if r.cmd.STOP? then r.(result := 0) else r
    case Act => r.(result := Report(c.act(k, q.jobs, q.seen).1))
    case Reply => r.(semResult := r.semResult + 1)
    case Gone => r
  }

  function ClientStep(c: Config, s: State, k: nat): (s': State)
    requires s.WellFormed() && ClientEnabled(s, k)
  {
    var q, r := s.cli[k], s.rec[k];
    s.(cli := s.cli[k := ClientNext(c, k, q, r, s.Read(r.offset))],
       rec := s.rec[k := ClientRecord(c, k, q, r)],
       mem := if q.pc.Act? then s.mem[r.offset := c.act(k, q.jobs, q.seen).0] else s.mem)
  }

  predicate Enabled(s: State, a: Actor)
    requires s.WellFormed()
  {
    match a
    case Module(k) => ThreadEnabled(s, k)
    case Child(k) => ClientEnabled(s, k)
    case RaiseExit => !s.exit
    case GoLive => !s.live
  }

  function Step(c: Config, s: State, a: Actor): (s': State)
    requires s.WellFormed() && Enabled(s, a)
    ensures s'.WellFormed() && |s'.thr| == |s.thr|
  {
    match a
    case Module(k) => ThreadStep(s, k)
    case Child(k) => ClientStep(c, s, k)
    case RaiseExit => s.(exit := true)
    case GoLive => s.(live := true)
  }

  // ---------------------------------------------------------------- runs

  /** The state the modules are started in: `new_cmd` 0, `result` 1, both
      semaphores of each process record 0, every chunk in the full ring. */
  predicate Init(s: State, chunks: seq<nat>) {
    && s.WellFormed()
    && !s.exit && !s.live
    && s.free == chunks && s.sem == |chunks|
    && Distinct(chunks)
    && s.owner == (map o | o in chunks :: Free)
    && (forall k :: 0 <= k < |s.thr| ==>
          && s.box[k] == Mailbox(0, 1, JOB, s.box[k].dataoffset, [], [], [])
          && s.thr[k] == Thread(if k == 0 then Top else RecvWait, JOB, s.thr[k].offset, [])
          && s.rec[k] == Record(0, 0, s.rec[k].cmd, s.rec[k].offset, s.rec[k].result)
          && s.cli[k] == Client(Idle, s.cli[k].seen, false, 0, []))
  }

  /** Every actor of the schedule can move when its turn comes. */
  predicate Legal(c: Config, s: State, schedule: seq<Actor>)
    requires s.WellFormed()
    decreases |schedule|
  {
    schedule == [] ||
    (Enabled(s, schedule[0]) && Legal(c, Step(c, s, schedule[0]), schedule[1..]))
  }

  /** The state a legal schedule leads to. */
  function Run(c: Config, s: State, schedule: seq<Actor>): (s': State)
    requires s.WellFormed() && Legal(c, s, schedule)
    ensures s'.WellFormed() && |s'.thr| == |s.thr|
    decreases |schedule|
  {
    if schedule == [] then s else Run(c, Step(c, s, schedule[0]), schedule[1..])
  }

  predicate AllReturned(s: State) {
    forall k :: 0 <= k < |s.thr| ==> s.thr[k].pc.Done?
  }

  // ------------------------------------------- what the chain should compute

  /** Whether stage `k` passes a chunk on. The source ignores its child's report. */
  predicate Passes(k: nat, status: int) {
    k == 0 || Report(status) == 0
  }

  /** Reference definition of a stage: the contents it passes on when it is given
      the chunks `inn`, one job per chunk, in order. */
  function Accepted(c: Config, k: nat, inn: seq<Data>): seq<Data> {
    if inn == [] then []
    else
      var front := inn[..|inn| - 1];
      var (d, status) := c.act(k, |front|, inn[|front|]);
      Accepted(c, k, front) + (if Passes(k, status) then [d] else [])
  }

  /** Reference definition of the chain: what stage `k` should be given when the
      source captured `captured`. */
  function Through(c: Config, k: nat, captured: seq<Data>): seq<Data>
  {
    if k <= 1 then captured else Accepted(c, k - 1, Through(c, k - 1, captured))
  }
}
