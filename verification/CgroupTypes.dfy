/** The cgroups plugin's processes, groups, partitions and context. */
module CgroupTypes {
  import opened Wrappers

  /** Who may change a process's priority. */
  datatype PrioMode = Default | Locked | Extern

  class Partition {
    const name: string
    const freezable: bool    // whether it has a freezer control file

    constructor (name: string, freezable: bool) {
      this.name, this.freezable := name, freezable;
    }
  }

  class Process {
    const pid: int
    const tgid: int
    var tracer: int              // tracer task id, or 0
    var name: string
    var group: Group?
    var partition: Partition?
    var priority: int
    var prioMode: PrioMode
    var asked: Option<int>       // the nice value last asked of the kernel, if any
    var nice: Option<int>        // the nice value last accepted by the kernel

    constructor (pid: int, tgid: int, tracer: int, name: string)
      ensures this.pid == pid && this.tgid == tgid && this.tracer == tracer && this.name == name
      ensures group == null && partition == null
      ensures priority == 0 && prioMode == Default && asked == nice == None
    {
      this.pid, this.tgid, this.tracer, this.name := pid, tgid, tracer, name;
      group, partition := null, null;
      priority, prioMode, asked, nice := 0, Default, None, None;
    }
  }

  class Group {
    const name: string
    var processes: seq<Process>
    var partition: Partition?
    var reassign: bool           // CGRP_GROUPFLAG_REASSIGN
    var priority: int            // CGRP_DEFAULT_PRIORITY when the group sets none

    constructor (name: string, priority: int)
      ensures this.name == name && processes == [] && partition == null && !reassign && this.priority == priority
    {
      this.name, processes, partition, reassign, this.priority := name, [], null, false, priority;
    }
  }

  const CGRP_DEFAULT_PRIORITY := 0xffff

  /** What the kernel says to a write into a control file. */
  datatype Result = Written | NoSuchProcess | Failed

  /** A request to move a task. */
  datatype Write = Write(target: Partition, process: Process, result: Result)

  class Context {
    var table: seq<Process>                // the process table, in traversal order
    var leaders: map<string, seq<string>>  // follower names by leader name
    var root: Partition
    var groups: seq<Group>
    var activeProcess: Process?
    var activeGroup: Group?
    var log: seq<Write>                    // every task write so far
    const kernel: nat -> Result            // what the kernel says to each of them

    constructor (root: Partition, groups: seq<Group>, kernel: nat -> Result)
      ensures table == [] && leaders == map[] && this.root == root && this.groups == groups
      ensures activeProcess == null && activeGroup == null && log == [] && this.kernel == kernel
    {
      this.table, this.leaders, this.root, this.groups := [], map[], root, groups;
      activeProcess, activeGroup, log, this.kernel := null, null, [], kernel;
    }
  }

  /** The oldest entry with the given pid: same pids share a bucket, which is in insertion order. */
  function Lookup(table: seq<Process>, pid: int): (r: Process?)
    ensures r != null ==> r in table && r.pid == pid
    ensures r == null ==> forall q :: q in table ==> q.pid != pid
  {
    if table == [] then null
    else if table[0].pid == pid then table[0]
    else Lookup(table[1..], pid)
  }
}
