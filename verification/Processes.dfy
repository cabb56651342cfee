/** kill_process: every running process whose name equals the file name of
    the target path is killed; no other process is touched. The process
    table is an array of records that the method updates in place, standing
    for psutil's listing and `proc.kill()`. */
module Processes {
  import opened Paths

  datatype Process = Process(pid: nat, name: string, killed: bool)

  /** The process after the loop body has looked at it. */
  function Visit(p: Process, fileName: string): Process {
    if p.name == fileName then p.(killed := true) else p
  }

  /** The process table after every process named `fileName` was killed. */
  function KillNamed(ps: seq<Process>, fileName: string): (r: seq<Process>)
    ensures |r| == |ps|
  {
    if ps == [] then [] else [Visit(ps[0], fileName)] + KillNamed(ps[1..], fileName)
  }

  /** Exactly the processes named `fileName` are killed; every other
      process, and every other field, is left as it was. */
  lemma {:induction false} KillNamedAt(ps: seq<Process>, fileName: string, i: nat)
    requires i < |ps|
    ensures KillNamed(ps, fileName)[i] == if ps[i].name == fileName then ps[i].(killed := true) else ps[i]
  {
    if i > 0 {
      KillNamedAt(ps[1..], fileName, i - 1);
    }
  }

  /** `kill_process(path)`, over the given process table. */
  method KillProcess(path: string, procs: array<Process>)
    modifies procs
    ensures procs[..] == KillNamed(old(procs[..]), Basename(path))
  {
    var fileName := Basename(path);
    for i := 0 to procs.Length
      invariant forall k :: 0 <= k < i ==> procs[k] == Visit(old(procs[k]), fileName)
      invariant forall k :: i <= k < procs.Length ==> procs[k] == old(procs[k])
    {
      if procs[i].name == fileName {
        procs[i] := procs[i].(killed := true);
      }
    }
    forall k | 0 <= k < procs.Length
      ensures procs[..][k] == KillNamed(old(procs[..]), fileName)[k]
    {
      KillNamedAt(old(procs[..]), fileName, k);
    }
  }

  /** With no process of that name, nothing changes. */
  lemma NoMatchNoChange(ps: seq<Process>, fileName: string)
    requires forall i :: 0 <= i < |ps| ==> ps[i].name != fileName
    ensures KillNamed(ps, fileName) == ps
  {
  }

  /** Killing twice is killing once. */
  lemma KillIdempotent(ps: seq<Process>, fileName: string)
    ensures KillNamed(KillNamed(ps, fileName), fileName) == KillNamed(ps, fileName)
  {
  }

  /** After the kill no process of that name is left running, and the running
      processes are exactly those that ran before under another name. */
  lemma Survivors(ps: seq<Process>, fileName: string, i: nat)
    requires i < |ps|
    ensures !KillNamed(ps, fileName)[i].killed <==> !ps[i].killed && ps[i].name != fileName
    ensures KillNamed(ps, fileName)[i].pid == ps[i].pid
  {
    KillNamedAt(ps, fileName, i);
  }
}
