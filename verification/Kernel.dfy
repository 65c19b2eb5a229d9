/**
 The part of the operating system the process manager depends on: children that run, children
 that have exited but were not reaped yet, and how each child ended.

 Every child carries the identity (`tag`) of the action it was forked for. The program never sees
 a tag; the theorems use it to say that an exit is attributed to the right action.
 */
module Kernel {

  datatype ExitStatus = Exited(code: int) | Signalled(signo: int)

  /** What the completion handler counts as a failure: an error code, or a non-zero exit code. */
  predicate IsFailure(status: ExitStatus) {
    status.Signalled? || status.code != 0
  }

  /** running and zombies map a pid to its tag; pids and fate are the history of every child. */
  datatype Os = Os(
    running: map<int, nat>,
    zombies: map<int, nat>,
    pids: map<nat, int>,
    fate: map<nat, ExitStatus>)
  {

    /** A pid is not handed out again before the child that has it was reaped. */
    predicate Free(pid: int) {
      pid > 0 && pid !in running && pid !in zombies
    }

    function Fork(pid: int, tag: nat): Os {
      this.(running := running[pid := tag], pids := pids[tag := pid])
    }

    /** A running child turns into a zombie. */
    function Exit(pid: int, status: ExitStatus): Os
      requires pid in running
    {
      this.(running := running - {pid},
            zombies := zombies[pid := running[pid]],
            fate := fate[running[pid] := status])
    }

    function Reap(pid: int): Os {
      this.(zombies := zombies - {pid})
    }
  }

  const NO_CHILDREN := Os(map[], map[], map[], map[])

  /** `order` lists every zombie exactly once: the order in which waitid hands them out. */
  ghost predicate Enumerates(order: seq<int>, pids: set<int>) {
    && (forall i, j :: 0 <= i < j < |order| ==> order[i] != order[j])
    && (forall p :: p in pids <==> p in order)
  }
}
