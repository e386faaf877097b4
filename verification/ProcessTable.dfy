/** How started modules get their index into the process records. */
module ProcessTable {

  /** What happens to a start request outside the table: an internal thread has no
      program to run, and running one can fail in two places. */
  datatype Launch = Internal | NotExecutable | ForkFails | Forked(pid: int)

  predicate Runs(launch: Launch) {
    launch.Internal? || launch.Forked?
  }

  /** The indices given to a series of requests when `cnt` are already used up: a
      request takes an index even when its program then fails to run, and a request
      past the end of the table takes none. */
  function Indices(cnt: nat, max: nat, launches: seq<Launch>): seq<int>
    decreases |launches|
  {
    if launches == [] then []
    else if cnt >= max then [-1] + Indices(cnt, max, launches[1..])
    else [if Runs(launches[0]) then cnt else -1] + Indices(cnt + 1, max, launches[1..])
  }

  /** The `i`-th request gets the `i`-th free index or fails. */
  lemma {:induction false} IndexAt(cnt: nat, max: nat, launches: seq<Launch>, i: nat)
    requires i < |launches| && cnt <= max
    ensures |Indices(cnt, max, launches)| == |launches|
    ensures Indices(cnt, max, launches)[i] == if cnt + i < max && Runs(launches[i]) then cnt + i else -1
    decreases |launches|
  {
    if cnt >= max {
      if i > 0 { IndexAt(cnt, max, launches[1..], i - 1); } else { IndicesLength(cnt, max, launches); }
    } else {
      if i > 0 { IndexAt(cnt + 1, max, launches[1..], i - 1); } else { IndicesLength(cnt, max, launches); }
    }
  }

  lemma {:induction false} IndicesLength(cnt: nat, max: nat, launches: seq<Launch>)
    ensures |Indices(cnt, max, launches)| == |launches|
    decreases |launches|
  {
    if launches != [] {
      IndicesLength(cnt, max, launches[1..]);
      if cnt < max { IndicesLength(cnt + 1, max, launches[1..]); }
    }
  }

  /** No two started modules share a process record, and every record exists. */
  lemma IndicesDistinct(cnt: nat, max: nat, launches: seq<Launch>, i: nat, j: nat)
    requires i < j < |launches| && cnt <= max
    ensures var ids := Indices(cnt, max, launches);
            && |ids| == |launches|
            && (ids[i] >= 0 ==> ids[i] < max && ids[i] != ids[j])
  {
    IndexAt(cnt, max, launches, i);
    IndexAt(cnt, max, launches, j);
  }

  /** The static variables of the process manager. */
  class ProcessManager {
    var processCnt: nat
    var processCntMax: nat
    var pids: array<int>

    ghost predicate Valid()
      reads this
    {
      processCnt <= processCntMax == pids.Length
    }

    /** `process_subsystem_init` in a fresh server process. */
    constructor (cnt: nat)
      ensures Valid() && processCnt == 0 && processCntMax == cnt && fresh(pids)
      ensures forall i :: 0 <= i < cnt ==> pids[i] == -1
    {
      processCnt := 0;
      processCntMax := cnt;
      pids := new int[cnt](_ => -1);
    }

    /** `process_start`: the index is taken under the mutex, before the program is
        looked at. */
    method ProcessStart(launch: Launch) returns (id: int)
      requires Valid()
      modifies this`processCnt, pids
      ensures Valid()
      ensures id >= 0 <==> old(processCnt) < processCntMax && (launch.Internal? || launch.Forked?)
      ensures id == if id >= 0 then old(processCnt) else -1
      ensures [id] == Indices(old(processCnt), processCntMax, [launch])
      ensures processCnt == if old(processCnt) < processCntMax then old(processCnt) + 1 else old(processCnt)
      ensures forall i :: 0 <= i < pids.Length ==>
                pids[i] == if i == id && launch.Forked? then launch.pid else old(pids[i])
    {
      if processCnt >= processCntMax { return -1; }
      id := processCnt;
      processCnt := processCnt + 1;
      match launch
      case Internal => return id;
      case NotExecutable => return -1;
      case ForkFails => return -1;
      case Forked(pid) => pids[id] := pid;
    }

    /** The start loop of `pipeline_thread`: modules in list order, each waited for,
        ended by the first that fails. */
    method StartModules(launches: seq<Launch>) returns (idx: seq<int>, realStarted: nat)
      requires Valid() && processCnt == 0
      modifies this`processCnt, pids
      ensures Valid() && realStarted <= |idx| <= |launches|
      ensures forall i :: 0 <= i < realStarted ==> idx[i] == i && i < processCntMax
      ensures realStarted == |launches| <==>
                |launches| <= processCntMax && forall i :: 0 <= i < |launches| ==> launches[i].Internal? || launches[i].Forked?
    {
      idx, realStarted := [], 0;
      while realStarted < |launches|
        invariant Valid() && realStarted == |idx| == processCnt <= |launches|
        invariant forall i :: 0 <= i < realStarted ==> idx[i] == i && Runs(launches[i])
        decreases |launches| - realStarted
      {
        ghost var launch := launches[realStarted];
        IndexAt(processCnt, processCntMax, [launch], 0);
        var id := ProcessStart(launches[realStarted]);
        idx := idx + [id];
        if id == -1 { return; }
        realStarted := realStarted + 1;
      }
    }
  }
}
