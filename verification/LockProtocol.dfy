// The lock of a sandbox: a file that records who initialized the box, locked
// while a command works on the box, truncated by a cleanup and never unlinked
// (src/isolate/isolate.c:128-246, src/isolate/isolate.c:937-984), and the directory
// of the box, which is removed entry by entry and which a run has to find
// (src/isolate/util.c:129-212, src/isolate/isolate.c:1038-1047).
module LockProtocol {
  import opened Basics

  // ----- the lock file -----

  datatype Content =
    | Absent
    | Empty
    | Garbage
    | Record(owner: nat, cgroups: bool, initialized: bool)

  datatype Command = Init | Run | Cleanup

  // Who calls: the user the box is for, whether root invoked the command, the
  // control group mode, and whether to wait for the lock.
  datatype Caller = Caller(command: Command, uid: nat, root: bool, cgroups: bool, wait: bool)

  datatype Verdict = Enter | Nothing | Refused

  predicate Mine(r: Content, who: Caller)
    requires r.Record?
  {
    r.owner == who.uid || who.root
  }

  // What holding the lock on a file with this content leads to.
  function Judge(c: Content, who: Caller): Verdict {
    match c
    case Garbage => Refused
    case Record(owner, cgroups, initialized) =>
      if initialized && !Mine(c, who) then Refused
      else if cgroups != who.cgroups then Refused
      else if who.command.Init? then Enter
      else if initialized then Enter
      else Refused
    case _ => if who.command.Init? then Enter else Nothing
  }

  // When a command gets in: an initialization if there is no record yet; any command
  // with a complete record, for its owner and for root, in the mode of the record; an
  // initialization with an incomplete one, in its mode.
  lemma EntersIff(c: Content, who: Caller)
    ensures Judge(c, who).Enter? <==>
            match c
            case Absent => who.command.Init?
            case Empty => who.command.Init?
            case Garbage => false
            case Record(owner, cgroups, initialized) =>
              cgroups == who.cgroups && if initialized then who.uid == owner || who.root else who.command.Init?
    ensures Judge(c, who).Nothing? <==> (c.Absent? || c.Empty?) && !who.command.Init?
  {
  }

  function Claimed(who: Caller): Content {
    Record(who.uid, who.cgroups, false)
  }

  function Complete(who: Caller): Content {
    Record(who.uid, who.cgroups, true)
  }

  predicate Trusted(c: Content) {
    c.Record? && c.initialized
  }

  class LockFile {
    var content: Content

    constructor (content: Content)
      ensures this.content == content
    {
      this.content := content;
    }

    // The file is open and locked.
    method Check(who: Caller) returns (v: Verdict)
      modifies this
      ensures v == Judge(old(content), who)
      ensures old(content).Record? && old(content).initialized ==>
                (v.Enter? <==> (who.uid == old(content).owner || who.root) && who.cgroups == old(content).cgroups)
      ensures old(content).Record? && !old(content).initialized ==> (v.Enter? <==> who.command.Init? && who.cgroups == old(content).cgroups)
      ensures old(content).Absent? || old(content).Empty? ==> v == if who.command.Init? then Enter else Nothing
      ensures old(content).Garbage? ==> v.Refused?
      ensures content == if v.Enter? && who.command.Init? then Claimed(who) else old(content)
    {
      if content.Garbage? {
        return Refused;
      }
      if content.Record? {
        if content.initialized && content.owner != who.uid && !who.root {
          return Refused;
        }
        if content.cgroups != who.cgroups {
          return Refused;
        }
      }
      if who.command.Init? {
        content := Record(who.uid, who.cgroups, false);
        return Enter;
      }
      if content.Record? {
        return if content.initialized then Enter else Refused;
      }
      return Nothing;
    }
  }

  // ----- the processes -----

  // The directory of the box: not there; there without the directory the program
  // works in; with that directory, but something of the box has been removed; or as
  // the initialization left it to the programs.
  datatype Box = Gone | Hollow | Broken | Whole

  // What happened to the box itself, whatever the file says.
  datatype Happened =
    | Taken(pid: nat, uid: nat, cgroups: bool)
    | Removed(pid: nat)
    | Ready(pid: nat, uid: nat, cgroups: bool)
    | Freed(pid: nat)

  // An initialization is Cleaning, Emptied, Made, Prepared and Sealed, a cleanup
  // Cleaning, Emptied and Truncated, a run Running and Executing.
  datatype Stage =
    | Started
    | Opened
    | Locked
    | Cleaning
    | Emptied
    | Made
    | Prepared
    | Sealed
    | Truncated
    | Running
    | Executing
    | Over

  datatype Process = Process(who: Caller, stage: Stage)

  datatype System = System(procs: map<nat, Process>, holder: Option<nat>, file: Content, box: Box, history: seq<Happened>)

  datatype Step =
    | Spawn(pid: nat, who: Caller)
    | Open(pid: nat)
    | Lock(pid: nat)
    | Check(pid: nat)
    | Unlink(pid: nat)
    | Unbox(pid: nat)
    | Rmdir(pid: nat)
    | Clear(pid: nat)
    | MakeDir(pid: nat)
    | Prepare(pid: nat)
    | Seal(pid: nat)
    | Truncate(pid: nat)
    | Launch(pid: nat)
    | Exit(pid: nat)

  // Only root may initialize where that is restricted.
  datatype Config = Config(restricted: bool, careful: bool)

  predicate At(s: System, pid: nat, stage: Stage) {
    pid in s.procs && s.procs[pid].stage == stage
  }

  predicate Is(s: System, pid: nat, command: Command) {
    pid in s.procs && s.procs[pid].who.command == command
  }

  // A cleanup has begun to remove the box and has not come to the directory the
  // program works in.
  predicate MidRemoval(s: System, pid: nat) {
    At(s, pid, Cleaning) && Is(s, pid, Cleanup) && s.box.Broken?
  }

  // An operation waits for the lock only if told to. The directory of the box goes
  // last. Processes end or die at any stage; with careful cleanups a cleanup does
  // not die in the middle of the removal.
  predicate Enabled(s: System, config: Config, step: Step) {
    match step
    case Spawn(pid, who) => pid !in s.procs && (who.command.Init? && config.restricted ==> who.root)
    case Open(pid) => At(s, pid, Started)
    case Lock(pid) => At(s, pid, Opened) && (s.holder.Some? ==> !s.procs[pid].who.wait)
    case Check(pid) => At(s, pid, Locked)
    case Unlink(pid) => At(s, pid, Cleaning) && !s.box.Gone?
    case Unbox(pid) => At(s, pid, Cleaning) && (s.box.Whole? || s.box.Broken?)
    case Rmdir(pid) => At(s, pid, Cleaning) && s.box.Hollow?
    case Clear(pid) => At(s, pid, Cleaning) && s.box.Gone?
    case MakeDir(pid) => At(s, pid, Emptied) && Is(s, pid, Init)
    case Prepare(pid) => At(s, pid, Made)
    case Seal(pid) => At(s, pid, Prepared)
    case Truncate(pid) => At(s, pid, Emptied) && Is(s, pid, Cleanup)
    case Launch(pid) => At(s, pid, Running)
    case Exit(pid) => pid in s.procs && (config.careful ==> !MidRemoval(s, pid))
  }

  function Goes(s: System, pid: nat, stage: Stage): System
    requires pid in s.procs
  {
    s.(procs := s.procs[pid := s.procs[pid].(stage := stage)])
  }

  function Ends(s: System, pid: nat): System
    requires pid in s.procs
  {
    Goes(s.(holder := if s.holder == Some(pid) then None else s.holder), pid, Over)
  }

  function Removes(s: System, pid: nat, box: Box): System {
    s.(box := box, history := s.history + [Removed(pid)])
  }

  function Next(s: System, config: Config, step: Step): System
    requires Enabled(s, config, step)
  {
    match step
    case Spawn(pid, who) => s.(procs := s.procs[pid := Process(who, Started)])
    case Open(pid) =>
      if s.file.Absent? then
        if Is(s, pid, Init) then Goes(s.(file := Empty), pid, Opened) else Ends(s, pid)
      else Goes(s, pid, Opened)
    case Lock(pid) => if s.holder.None? then Goes(s.(holder := Some(pid)), pid, Locked) else Ends(s, pid)
    case Check(pid) => Checked(s, pid)
    case Unlink(pid) => Removes(s, pid, if s.box.Hollow? then Hollow else Broken)
    case Unbox(pid) => Removes(s, pid, Hollow)
    case Rmdir(pid) => Removes(s, pid, Gone)
    case Clear(pid) => Goes(s, pid, Emptied)
    case MakeDir(pid) => Goes(s.(box := Hollow), pid, Made)
    case Prepare(pid) => Goes(s.(box := Whole), pid, Prepared)
    case Seal(pid) =>
      var who := s.procs[pid].who;
      Goes(s.(file := Complete(who), history := s.history + [Ready(pid, who.uid, who.cgroups)]), pid, Sealed)
    case Truncate(pid) => Goes(s.(file := Empty, history := s.history + [Freed(pid)]), pid, Truncated)
    case Launch(pid) => if s.box.Gone? || s.box.Hollow? then Ends(s, pid) else Goes(s, pid, Executing)
    case Exit(pid) => Ends(s, pid)
  }

  function Checked(s: System, pid: nat): System
    requires pid in s.procs
  {
    var who := s.procs[pid].who;
    if Judge(s.file, who) != Enter then Ends(s, pid)
    else
      match who.command
      case Init => Goes(s.(file := Claimed(who), history := s.history + [Taken(pid, who.uid, who.cgroups)]), pid, Cleaning)
      case Run => Goes(s, pid, Running)
      case Cleanup => Goes(s, pid, Cleaning)
  }

  predicate LegalRun(s: System, config: Config, steps: seq<Step>)
    decreases |steps|
  {
    steps == [] || (Enabled(s, config, steps[0]) && LegalRun(Next(s, config, steps[0]), config, steps[1..]))
  }

  function After(s: System, config: Config, steps: seq<Step>): System
    requires LegalRun(s, config, steps)
    decreases |steps|
  {
    if steps == [] then s else After(Next(s, config, steps[0]), config, steps[1..])
  }

  // No process, and a lock file that records no box, whatever is in its place.
  predicate Bare(s: System) {
    s.procs == map[] && s.holder.None? && !s.file.Record? && s.history == []
  }

  // ----- safety -----

  predicate HasLock(stage: Stage) {
    !(stage.Started? || stage.Opened? || stage.Over?)
  }

  // The last thing that happened to the box was an initialization that finished.
  predicate Usable(history: seq<Happened>, uid: nat, cgroups: bool) {
    history != [] && history[|history| - 1].Ready?
    && history[|history| - 1].uid == uid && history[|history| - 1].cgroups == cgroups
  }

  // The record is complete, belongs to the caller or the caller is root, and has the
  // caller's mode.
  predicate Allowed(file: Content, who: Caller) {
    Trusted(file) && Mine(file, who) && file.cgroups == who.cgroups
  }

  // A command past the lock works alone. A run and a cleanup have a record that
  // allows them; a program executes in a whole box whose last initialization
  // finished, for the user and in the mode of the record, and of which nothing has
  // been removed since.
  ghost predicate Safe(s: System) {
    && (forall pid, q :: pid in s.procs && q in s.procs && HasLock(s.procs[pid].stage) && HasLock(s.procs[q].stage) ==> q == pid)
    && (forall pid :: At(s, pid, Running) || At(s, pid, Executing) ==> Is(s, pid, Run) && Allowed(s.file, s.procs[pid].who))
    && (forall pid :: At(s, pid, Cleaning) && Is(s, pid, Cleanup) ==> Allowed(s.file, s.procs[pid].who))
    && (forall pid :: At(s, pid, Executing) ==> s.box.Whole? && Usable(s.history, s.file.owner, s.file.cgroups))
  }

  // What the file looks like while this process holds the lock.
  predicate FileFits(file: Content, p: Process) {
    match p.stage
    case Cleaning => MayRemove(file, p.who)
    case Emptied => MayRemove(file, p.who)
    case Made => p.who.command.Init? && file == Claimed(p.who)
    case Prepared => p.who.command.Init? && file == Claimed(p.who)
    case Sealed => file == Complete(p.who)
    case Truncated => file.Empty?
    case Running => p.who.command.Run? && Allowed(file, p.who)
    case Executing => p.who.command.Run? && Allowed(file, p.who)
    case _ => true
  }

  // What the box looks like.
  predicate BoxFits(box: Box, stage: Stage) {
    && (stage.Emptied? ==> box.Gone?)
    && (stage.Made? ==> box.Hollow?)
    && (stage.Prepared? || stage.Executing? ==> box.Whole?)
  }

  ghost predicate Exclusive(s: System) {
    && (forall pid :: pid in s.procs && HasLock(s.procs[pid].stage) ==> s.holder == Some(pid) && FileFits(s.file, s.procs[pid]))
    && (s.holder.Some? ==> s.holder.value in s.procs && HasLock(s.procs[s.holder.value].stage))
  }

  predicate MayRemove(file: Content, who: Caller) {
    match who.command
    case Init => file == Claimed(who)
    case Cleanup => Allowed(file, who)
    case Run => false
  }

  // A box behind a complete record is whole and usable, or no program can start in
  // it, or a cleanup is at work on it.
  ghost predicate Invariant(s: System) {
    && Exclusive(s)
    && (forall pid :: pid in s.procs ==> BoxFits(s.box, s.procs[pid].stage))
    && (Trusted(s.file) && s.box.Whole? ==> Usable(s.history, s.file.owner, s.file.cgroups))
    && (Trusted(s.file) && s.box.Broken? ==> s.holder.Some? && MidRemoval(s, s.holder.value))
  }

  lemma InvariantIsSafe(s: System)
    requires Invariant(s)
    ensures Safe(s)
  {
  }

  lemma EndKeeps(s: System, pid: nat)
    requires Invariant(s) && pid in s.procs && !MidRemoval(s, pid)
    ensures Invariant(Ends(s, pid))
  {
  }

  lemma CheckKeeps(s: System, pid: nat)
    requires Invariant(s) && At(s, pid, Locked)
    ensures Invariant(Checked(s, pid))
  {
  }

  lemma ArrivalKeeps(s: System, config: Config, step: Step)
    requires Invariant(s) && Enabled(s, config, step) && (step.Spawn? || step.Open? || step.Lock?)
    ensures Invariant(Next(s, config, step))
  {
  }

  lemma RemovalKeeps(s: System, pid: nat, box: Box)
    requires Invariant(s) && At(s, pid, Cleaning) && !box.Whole? && (box.Broken? ==> !s.box.Hollow? && !s.box.Gone?)
    ensures Invariant(Removes(s, pid, box))
  {
  }

  lemma MakingKeeps(s: System, config: Config, step: Step)
    requires Invariant(s) && Enabled(s, config, step) && (step.Clear? || step.MakeDir? || step.Prepare? || step.Seal?)
    ensures Invariant(Next(s, config, step))
  {
  }

  lemma StepKeeps(s: System, config: Config, step: Step)
    requires Invariant(s) && Enabled(s, config, step) && config.careful
    ensures Invariant(Next(s, config, step))
  {
    match step {
      case Exit(pid) => EndKeeps(s, pid);
      case Check(pid) => CheckKeeps(s, pid);
      case Unlink(pid) => RemovalKeeps(s, pid, if s.box.Hollow? then Hollow else Broken);
      case Unbox(pid) => RemovalKeeps(s, pid, Hollow);
      case Rmdir(pid) => RemovalKeeps(s, pid, Gone);
      case Clear(_) => MakingKeeps(s, config, step);
      case MakeDir(_) => MakingKeeps(s, config, step);
      case Prepare(_) => MakingKeeps(s, config, step);
      case Seal(_) => MakingKeeps(s, config, step);
      case Truncate(_) =>
      case Launch(_) =>
      case _ => ArrivalKeeps(s, config, step);
    }
  }

  lemma {:induction false} RunKeeps(s: System, config: Config, steps: seq<Step>)
    requires Invariant(s) && LegalRun(s, config, steps) && config.careful
    ensures Invariant(After(s, config, steps))
    decreases |steps|
  {
    if steps != [] {
      StepKeeps(s, config, steps[0]);
      RunKeeps(Next(s, config, steps[0]), config, steps[1..]);
    }
  }

  // Safety over every interleaving of any number of processes.
  lemma EveryRunIsSafe(s: System, config: Config, steps: seq<Step>)
    requires Bare(s) && LegalRun(s, config, steps) && config.careful
    ensures Safe(After(s, config, steps))
  {
    RunKeeps(s, config, steps);
    InvariantIsSafe(After(s, config, steps));
  }

  // ----- whose box it is -----

  // A process that gets past the lock over a complete record, for whatever command, is
  // that of the recorded user or root, in the recorded mode.
  lemma PastTheLock(s: System, config: Config, pid: nat)
    requires Enabled(s, config, Check(pid)) && s.file.Record? && s.file.initialized
    ensures var p := Next(s, config, Check(pid)).procs[pid];
            !p.stage.Over? <==> (p.who.uid == s.file.owner || p.who.root) && p.who.cgroups == s.file.cgroups
  {
  }

  // A process that takes the box or removes something of it.
  predicate Touches(e: Happened) {
    e.Taken? || e.Removed?
  }

  // From where the i-th thing happened up to the j-th the box was neither taken nor
  // freed.
  predicate Undisturbed(history: seq<Happened>, i: nat, j: nat)
    requires i <= j <= |history|
  {
    forall m :: i <= m < j ==> !history[m].Taken? && !history[m].Freed?
  }

  // After an initialization has finished, only its user or root, in its mode, takes the
  // box or removes something of it, until one of them has taken it or a cleanup has
  // finished.
  ghost predicate OwnersRespected(s: System) {
    forall i: nat, j: nat :: i < j < |s.history| && s.history[i].Ready? && Touches(s.history[j]) && Undisturbed(s.history, i, j) ==>
      && s.history[j].pid in s.procs
      && (s.procs[s.history[j].pid].who.uid == s.history[i].uid || s.procs[s.history[j].pid].who.root)
      && s.procs[s.history[j].pid].who.cgroups == s.history[i].cgroups
  }

  // So long the record says so.
  ghost predicate Recorded(s: System) {
    forall i: nat :: i < |s.history| && s.history[i].Ready? && Undisturbed(s.history, i, |s.history|) ==>
      s.file == Record(s.history[i].uid, s.history[i].cgroups, true)
  }

  ghost predicate Owned(s: System) {
    Exclusive(s) && Recorded(s) && OwnersRespected(s)
  }

  // One thing more has happened.
  lemma UndisturbedMore(history: seq<Happened>, e: Happened, i: nat, j: nat)
    requires i <= j <= |history|
    ensures Undisturbed(history + [e], i, j) <==> Undisturbed(history, i, j)
    ensures j == |history| ==> (Undisturbed(history + [e], i, j + 1) <==> Undisturbed(history, i, j) && !e.Taken? && !e.Freed?)
  {
    var more := history + [e];
    assert forall m :: 0 <= m < |history| ==> more[m] == history[m];
    assert more[|history|] == e;
  }

  // A process keeps its caller.
  predicate SameCallers(s: System, t: System) {
    forall pid :: pid in s.procs ==> pid in t.procs && t.procs[pid].who == s.procs[pid].who
  }

  lemma OwnersStill(s: System, t: System)
    requires OwnersRespected(s) && SameCallers(s, t) && t.history == s.history
    ensures OwnersRespected(t)
  {
  }

  // The new thing does not touch the box, or is done by someone whom the record allows.
  lemma OwnersMore(s: System, t: System, e: Happened)
    requires Recorded(s) && OwnersRespected(s) && SameCallers(s, t) && t.history == s.history + [e]
    requires Touches(e) && Trusted(s.file) ==> e.pid in s.procs && Allowed(s.file, s.procs[e.pid].who)
    ensures OwnersRespected(t)
  {
    forall i: nat, j: nat | i < j < |t.history| && t.history[i].Ready? && Touches(t.history[j]) && Undisturbed(t.history, i, j)
      ensures t.history[j].pid in t.procs
              && (t.procs[t.history[j].pid].who.uid == t.history[i].uid || t.procs[t.history[j].pid].who.root)
              && t.procs[t.history[j].pid].who.cgroups == t.history[i].cgroups
    {
      UndisturbedMore(s.history, e, i, j);
    }
  }

  lemma RecordedMore(s: System, t: System, e: Happened)
    requires Recorded(s) && t.history == s.history + [e]
    requires e.Ready? ==> t.file == Record(e.uid, e.cgroups, true)
    requires e.Removed? ==> t.file == s.file
    requires e.Ready? ==> !Trusted(s.file)
    ensures Recorded(t)
  {
    forall i: nat | i < |t.history| && t.history[i].Ready? && Undisturbed(t.history, i, |t.history|)
      ensures t.file == Record(t.history[i].uid, t.history[i].cgroups, true)
    {
      if i < |s.history| {
        UndisturbedMore(s.history, e, i, |s.history|);
      }
    }
  }

  lemma ExclusiveStep(s: System, config: Config, step: Step)
    requires Exclusive(s) && Enabled(s, config, step)
    ensures Exclusive(Next(s, config, step))
  {
    match step {
      case Spawn(_, _) => ExclusiveArrival(s, config, step);
      case Open(_) => ExclusiveArrival(s, config, step);
      case Lock(_) => ExclusiveArrival(s, config, step);
      case Check(pid) => ExclusiveCheck(s, pid);
      case Prepare(pid) => ExclusiveGoes(s, Next(s, config, step), pid);
      case Seal(pid) => ExclusiveGoes(s, Next(s, config, step), pid);
      case Truncate(pid) => ExclusiveGoes(s, Next(s, config, step), pid);
      case MakeDir(pid) => ExclusiveGoes(s, Next(s, config, step), pid);
      case Clear(pid) => ExclusiveGoes(s, Next(s, config, step), pid);
      case _ =>
    }
  }

  lemma ExclusiveArrival(s: System, config: Config, step: Step)
    requires Exclusive(s) && Enabled(s, config, step) && (step.Spawn? || step.Open? || step.Lock?)
    ensures Exclusive(Next(s, config, step))
  {
  }

  lemma ExclusiveCheck(s: System, pid: nat)
    requires Exclusive(s) && At(s, pid, Locked)
    ensures Exclusive(Checked(s, pid))
  {
  }

  // The process that has the lock goes on.
  lemma ExclusiveGoes(s: System, t: System, pid: nat)
    requires Exclusive(s) && pid in s.procs && HasLock(s.procs[pid].stage) && pid in t.procs && t.holder == s.holder
    requires t.procs == s.procs[pid := t.procs[pid]] && HasLock(t.procs[pid].stage) && FileFits(t.file, t.procs[pid])
    ensures Exclusive(t)
  {
  }

  lemma CallersStay(s: System, config: Config, step: Step)
    requires Enabled(s, config, step)
    ensures SameCallers(s, Next(s, config, step))
  {
  }

  // What a step adds to the history, if anything.
  function Adds(s: System, step: Step): Option<Happened> {
    match step
    case Check(pid) =>
      if Is(s, pid, Init) && Judge(s.file, s.procs[pid].who).Enter?
      then Some(Taken(pid, s.procs[pid].who.uid, s.procs[pid].who.cgroups)) else None
    case Unlink(pid) => Some(Removed(pid))
    case Unbox(pid) => Some(Removed(pid))
    case Rmdir(pid) => Some(Removed(pid))
    case Seal(pid) => if pid in s.procs then Some(Ready(pid, s.procs[pid].who.uid, s.procs[pid].who.cgroups)) else None
    case Truncate(pid) => Some(Freed(pid))
    case _ => None
  }

  lemma StepAdds(s: System, config: Config, step: Step)
    requires Enabled(s, config, step)
    ensures var t, e := Next(s, config, step), Adds(s, step);
            && t.history == s.history + (if e.Some? then [e.value] else [])
            && (e.None? && Trusted(s.file) ==> t.file == s.file)
            && (e.Some? && e.value.Removed? ==> t.file == s.file)
            && (e.Some? && e.value.Ready? ==> t.file == Record(e.value.uid, e.value.cgroups, true))
  {
  }

  lemma AddedByOwner(s: System, config: Config, step: Step)
    requires Exclusive(s) && Enabled(s, config, step) && Adds(s, step).Some?
    ensures var e := Adds(s, step).value;
            && (Touches(e) && Trusted(s.file) ==> e.pid in s.procs && Allowed(s.file, s.procs[e.pid].who))
            && (e.Ready? ==> !Trusted(s.file))
  {
  }

  lemma OwnedStep(s: System, config: Config, step: Step)
    requires Owned(s) && Enabled(s, config, step)
    ensures Owned(Next(s, config, step))
  {
    var t := Next(s, config, step);
    ExclusiveStep(s, config, step);
    CallersStay(s, config, step);
    StepAdds(s, config, step);
    if Adds(s, step).Some? {
      var e := Adds(s, step).value;
      AddedByOwner(s, config, step);
      OwnersMore(s, t, e);
      RecordedMore(s, t, e);
    } else {
      OwnersStill(s, t);
    }
  }

  lemma {:induction false} OwnedRun(s: System, config: Config, steps: seq<Step>)
    requires Owned(s) && LegalRun(s, config, steps)
    ensures Owned(After(s, config, steps))
    decreases |steps|
  {
    if steps != [] {
      OwnedStep(s, config, steps[0]);
      OwnedRun(Next(s, config, steps[0]), config, steps[1..]);
    }
  }

  // Over every interleaving, also with cleanups that die half-way.
  lemma EveryRunRespectsOwners(s: System, config: Config, steps: seq<Step>)
    requires Bare(s) && LegalRun(s, config, steps)
    ensures OwnersRespected(After(s, config, steps))
  {
    OwnedRun(s, config, steps);
  }

  // ----- runs that lead somewhere -----

  lemma OneStep(s: System, config: Config, step: Step, rest: seq<Step>)
    requires Enabled(s, config, step) && LegalRun(Next(s, config, step), config, rest)
    ensures LegalRun(s, config, [step] + rest)
    ensures After(s, config, [step] + rest) == After(Next(s, config, step), config, rest)
  {
    assert ([step] + rest)[1..] == rest;
  }

  // A command that finds the lock free and gets in.
  lemma Enters(s: System, config: Config, pid: nat, who: Caller)
    requires s.holder.None? && pid !in s.procs && Judge(s.file, who).Enter?
    requires who.command.Init? && config.restricted ==> who.root
    ensures var steps := [Spawn(pid, who), Open(pid), Lock(pid), Check(pid)];
            && LegalRun(s, config, steps)
            && After(s, config, steps) ==
               Checked(s.(procs := s.procs[pid := Process(who, Locked)], holder := Some(pid)), pid)
  {
    var a := Next(s, config, Spawn(pid, who));
    var b := Next(a, config, Open(pid));
    var c := Next(b, config, Lock(pid));
    OneStep(c, config, Check(pid), []);
    OneStep(b, config, Lock(pid), [Check(pid)]);
    OneStep(a, config, Open(pid), [Lock(pid), Check(pid)]);
    OneStep(s, config, Spawn(pid, who), [Open(pid), Lock(pid), Check(pid)]);
    assert c.procs == s.procs[pid := Process(who, Locked)];
    CheckedAlike(s.(procs := c.procs, holder := Some(pid)), c, pid);
  }

  // An initialization that creates the lock file finds it empty, which is as good
  // as absent.
  lemma CheckedAlike(s: System, t: System, pid: nat)
    requires At(s, pid, Locked) && Judge(s.file, s.procs[pid].who).Enter?
    requires t == s || (s.file.Absent? && t == s.(file := Empty))
    ensures Checked(t, pid) == Checked(s, pid)
  {
  }

  lemma {:induction false} AfterMore(s: System, config: Config, a: seq<Step>, b: seq<Step>)
    requires LegalRun(s, config, a) && LegalRun(After(s, config, a), config, b)
    ensures LegalRun(s, config, a + b) && After(s, config, a + b) == After(After(s, config, a), config, b)
    decreases |a|
  {
    if a == [] {
      assert a + b == b;
    } else {
      AfterMore(Next(s, config, a[0]), config, a[1..], b);
      assert (a + b)[1..] == a[1..] + b;
    }
  }

  ghost predicate Leads(s: System, config: Config, t: System) {
    exists steps :: LegalRun(s, config, steps) && After(s, config, steps) == t
  }

  lemma LeadsOn(s: System, config: Config, t: System, step: Step)
    requires Leads(s, config, t) && Enabled(t, config, step)
    ensures Leads(s, config, Next(t, config, step))
  {
    var steps :| LegalRun(s, config, steps) && After(s, config, steps) == t;
    OneStep(t, config, step, []);
    assert [step] + [] == [step];
    AfterMore(s, config, steps, [step]);
    assert LegalRun(s, config, steps + [step]);
  }

  lemma LeadsIn(s: System, config: Config, t: System, pid: nat, who: Caller)
    requires Leads(s, config, t)
    requires t.holder.None? && pid !in t.procs && Judge(t.file, who).Enter?
    requires who.command.Init? && config.restricted ==> who.root
    ensures Leads(s, config, Checked(t.(procs := t.procs[pid := Process(who, Locked)], holder := Some(pid)), pid))
  {
    var steps :| LegalRun(s, config, steps) && After(s, config, steps) == t;
    Enters(t, config, pid, who);
    var more := [Spawn(pid, who), Open(pid), Lock(pid), Check(pid)];
    AfterMore(s, config, steps, more);
    assert LegalRun(s, config, steps + more);
  }

  // Whatever is in the place of the box can be removed.
  lemma LeadsToEmptied(s: System, config: Config, t: System, pid: nat) returns (u: System, removed: seq<Happened>)
    requires Leads(s, config, t) && At(t, pid, Cleaning)
    ensures Leads(s, config, u) && u == Goes(t.(box := Gone, history := t.history + removed), pid, Emptied)
    ensures forall e :: e in removed ==> e == Removed(pid)
  {
    u, removed := t, [];
    if u.box.Whole? || u.box.Broken? {
      LeadsOn(s, config, u, Unbox(pid));
      u, removed := Next(u, config, Unbox(pid)), removed + [Removed(pid)];
    }
    if u.box.Hollow? {
      LeadsOn(s, config, u, Rmdir(pid));
      u, removed := Next(u, config, Rmdir(pid)), removed + [Removed(pid)];
    }
    LeadsOn(s, config, u, Clear(pid));
    u := Next(u, config, Clear(pid));
  }

  lemma LeadsToSealed(s: System, config: Config, t: System, pid: nat) returns (u: System)
    requires Leads(s, config, t) && At(t, pid, Emptied) && Is(t, pid, Init)
    ensures Leads(s, config, u)
    ensures var who := t.procs[pid].who;
            u == Goes(t.(file := Complete(who), box := Whole, history := t.history + [Ready(pid, who.uid, who.cgroups)]), pid, Sealed)
  {
    LeadsOn(s, config, t, MakeDir(pid));
    u := Next(t, config, MakeDir(pid));
    LeadsOn(s, config, u, Prepare(pid));
    u := Next(u, config, Prepare(pid));
    LeadsOn(s, config, u, Seal(pid));
    u := Next(u, config, Seal(pid));
  }

  // An undisturbed initialization that gets in, over whatever record and whatever
  // box, leaves a whole box and records it.
  lemma UndisturbedInit(s: System, config: Config, t: System, pid: nat, who: Caller)
    returns (u: System, removed: seq<Happened>)
    requires Leads(s, config, t) && t.holder.None? && pid !in t.procs && Judge(t.file, who).Enter?
    requires who.command.Init? && (config.restricted ==> who.root)
    ensures Leads(s, config, u) && u.holder.None? && u.file == Complete(who) && u.box.Whole?
    ensures u.procs == t.procs[pid := Process(who, Over)]
    ensures u.history == t.history + [Taken(pid, who.uid, who.cgroups)] + removed + [Ready(pid, who.uid, who.cgroups)]
    ensures forall e :: e in removed ==> e == Removed(pid)
  {
    LeadsIn(s, config, t, pid, who);
    u := Checked(t.(procs := t.procs[pid := Process(who, Locked)], holder := Some(pid)), pid);
    u, removed := LeadsToEmptied(s, config, u, pid);
    u := LeadsToSealed(s, config, u, pid);
    LeadsOn(s, config, u, Exit(pid));
    u := Next(u, config, Exit(pid));
  }

  // A run that the record lets in: a program executes if the directory it works in is
  // there.
  lemma UndisturbedRun(s: System, config: Config, t: System, pid: nat, who: Caller) returns (u: System)
    requires Leads(s, config, t) && t.holder.None? && pid !in t.procs && Allowed(t.file, who) && who.command.Run?
    ensures Leads(s, config, u) && u.file == t.file && u.box == t.box && u.history == t.history
    ensures At(u, pid, if t.box.Gone? || t.box.Hollow? then Over else Executing)
  {
    LeadsIn(s, config, t, pid, who);
    u := Checked(t.(procs := t.procs[pid := Process(who, Locked)], holder := Some(pid)), pid);
    LeadsOn(s, config, u, Launch(pid));
    u := Next(u, config, Launch(pid));
  }

  // ----- a cleanup that dies half-way -----

  ghost predicate AlwaysSafe(s: System, config: Config) {
    forall steps :: LegalRun(s, config, steps) ==> Safe(After(s, config, steps))
  }

  lemma {:induction false} Above(ks: set<nat>) returns (n: nat)
    ensures forall k :: k in ks ==> k < n
    decreases |ks|
  {
    if ks == {} {
      n := 0;
    } else {
      var x :| x in ks;
      n := Above(ks - {x});
      assert forall k :: k in ks ==> k == x || k in ks - {x};
      n := if x < n then n else x + 1;
    }
  }

  lemma OneStart(s: System, config: Config)
    ensures Leads(s, config, s)
  {
    assert LegalRun(s, config, []);
  }

  // A record that is trusted and a box that has lost something: its owner's program
  // executes there.
  lemma BrokenIsUnsafe(s: System, config: Config)
    requires s.holder.None? && Trusted(s.file) && s.box.Broken?
    ensures !AlwaysSafe(s, config)
  {
    var pid := Above(s.procs.Keys);
    OneStart(s, config);
    var u := UndisturbedRun(s, config, s, pid, Caller(Run, s.file.owner, false, s.file.cgroups, false));
    var steps :| LegalRun(s, config, steps) && After(s, config, steps) == u;
    assert !Safe(After(s, config, steps));
  }

  // A process may end or die anywhere, and whatever follows is safe, except a cleanup
  // that has begun to remove the box and has not come to the directory the program
  // works in.
  lemma DeathIsSafeIff(s: System, restricted: bool, pid: nat)
    requires Invariant(s) && pid in s.procs
    ensures AlwaysSafe(Ends(s, pid), Config(restricted, true)) <==> !MidRemoval(s, pid)
  {
    var config := Config(restricted, true);
    if MidRemoval(s, pid) {
      BrokenIsUnsafe(Ends(s, pid), config);
    } else {
      EndKeeps(s, pid);
      forall steps | LegalRun(Ends(s, pid), config, steps) ensures Safe(After(Ends(s, pid), config, steps)) {
        RunKeeps(Ends(s, pid), config, steps);
        InvariantIsSafe(After(Ends(s, pid), config, steps));
      }
    }
  }

  // A program executes in a box that has lost something.
  ghost predicate ExecutesInBroken(s: System) {
    s.box.Broken? && exists pid: nat :: At(s, pid, Executing)
  }

  // A run is past the lock although there is no box.
  ghost predicate PassesOnGone(s: System) {
    s.box.Gone? && exists pid: nat :: At(s, pid, Running)
  }

  // An initialization, then a cleanup by the owner that is past the lock.
  lemma CleanupBegins(s: System, config: Config, who: Caller) returns (u: System)
    requires Bare(s) && Judge(s.file, who).Enter? && who.command.Init? && (config.restricted ==> who.root)
    ensures Leads(s, config, u) && u.holder == Some(1) && u.procs.Keys == {0, 1}
    ensures At(u, 1, Cleaning) && Is(u, 1, Cleanup) && u.box.Whole? && u.file == Complete(who)
  {
    OneStart(s, config);
    var t, _ := UndisturbedInit(s, config, s, 0, who);
    LeadsIn(s, config, t, 1, who.(command := Cleanup));
    u := Checked(t.(procs := t.procs[1 := Process(who.(command := Cleanup), Locked)], holder := Some(1)), 1);
  }

  // Without the assumption on cleanups the protocol is unsafe: one that has removed a
  // single entry and dies leaves a box in which the owner's next program executes.
  lemma CarelessCleanupIsUnsafe(s: System, restricted: bool)
    requires Bare(s) && !s.file.Garbage?
    ensures exists u :: Leads(s, Config(restricted, false), u) && ExecutesInBroken(u)
  {
    var config, who := Config(restricted, false), Caller(Init, 0, true, false, false);
    var u := CleanupBegins(s, config, who);
    LeadsOn(s, config, u, Unlink(1));
    u := Next(u, config, Unlink(1));
    LeadsOn(s, config, u, Exit(1));
    u := Next(u, config, Exit(1));
    u := UndisturbedRun(s, config, u, 2, who.(command := Run));
    assert At(u, 2, Executing);
  }

  // One that has removed everything and dies leaves a record that lets the owner past
  // the lock; it is the missing directory that stops the run.
  lemma LateDeathLetsPast(s: System, restricted: bool)
    requires Bare(s) && !s.file.Garbage?
    ensures exists u :: Leads(s, Config(restricted, true), u) && PassesOnGone(u)
  {
    var config, who := Config(restricted, true), Caller(Init, 0, true, false, false);
    var u := CleanupBegins(s, config, who);
    var t, _ := LeadsToEmptied(s, config, u, 1);
    LeadsOn(s, config, t, Exit(1));
    u := Next(t, config, Exit(1));
    LeadsIn(s, config, u, 2, who.(command := Run));
    u := Checked(u.(procs := u.procs[2 := Process(who.(command := Run), Locked)], holder := Some(2)), 2);
    assert At(u, 2, Running);
  }
}
