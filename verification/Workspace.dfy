/**
 * The staging lease of a workspace (helper/_workspace.py): any number of
 * stagers, removers and reclaimers, interleaved one system call at a time.
 */
module Workspaces {
  import opened Base

  /** An inode of the lease file; the one allocation created is 0. */
  type Inode = nat

  /** Where a process is; a process that is done holds nothing. */
  datatype Pc =
    | Idle
    | StageOpening
    | StageOpened(inode: Inode)
    | StageLocked(inode: Inode)
    | StageChecked(inode: Inode, late: bool)
    | Staging(inode: Inode, late: bool)
    | RemoveMarking
    | RemoveOpening
    | RemoveOpened(inode: Inode)
    | Removing(inode: Inode)
    | Removed(inode: Inode)
    | Unmarked(inode: Inode)
    | Reclaiming
    | Retiring
  {
    predicate Exclusive(n: Inode) {
      (Removing? || Removed? || Unmarked?) && inode == n
    }

    predicate Shared(n: Inode) {
      (StageLocked? || StageChecked? || Staging?) && inode == n
    }

    /** Between opening the lease and letting it go. */
    predicate Holds(n: Inode) {
      Exclusive(n) || Shared(n)
    }
  }

  /** The session that owns the workspace and its session lock. */
  datatype Owner = Live | Releasing | Gone

  /**
   * The workspace's entries, its owner, and every process by number. `wasClosed`
   * remembers whether closure was ever published.
   */
  datatype State = State(
    work: bool,
    lease: Option<Inode>,
    next: Inode,
    closed: bool,
    wasClosed: bool,
    lockFile: bool,
    marker: bool,
    childRunning: bool,
    owner: Owner,
    procs: map<nat, Pc>)
  {
    function At(id: nat): Pc {
      if id in procs then procs[id] else Idle
    }

    function Moved(id: nat, pc: Pc): State {
      this.(procs := procs[id := pc])
    }

    predicate ExclusivelyHeld(n: Inode) {
      exists id | id in procs :: procs[id].Exclusive(n)
    }

    predicate Held(n: Inode) {
      exists id | id in procs :: procs[id].Holds(n)
    }
  }

  function Allocated(): State {
    State(true, Some(0), 1, false, false, true, false, false, Live, map[])
  }

  datatype Step =
    | MarkChild
    | SpawnChild
    | ChildGone
    | CloseStaging
    | ReleaseOwner
    | UnmarkChild
    | LoseOwner
    | Crash(id: nat)
    | StartStage(id: nat)
    | OpenStage(id: nat)
    | LockStage(id: nat)
    | CheckClosure(id: nat)
    | CheckWork(id: nat)
    | EndStage(id: nat)
    | StartRemoval(id: nat)
    | PublishClosure(id: nat)
    | OpenRemoval(id: nat)
    | LockRemoval(id: nat)
    | RemovePart(id: nat)
    | RemoveTree(id: nat)
    | UnlinkClosure(id: nat, fails: bool)
    | UnlinkLease(id: nat, fails: bool)
    | Reclaim(id: nat)
    | InspectMarker(id: nat)
    | InspectOrphan(id: nat)
    | RetireMetadata(id: nat, lease: bool)

  /**
   * The owner's steps: the marker goes up before a child runs and down only
   * after it is disposed of, and staging may be closed while the session is
   * still live, when it terminates, as well as when it retains its workspace.
   */
  function OwnerDoes(s: State, a: Step): State {
    match a
    case MarkChild => if s.owner.Live? && s.work then s.(marker := true) else s
    case SpawnChild => if s.owner.Live? && s.marker then s.(childRunning := true) else s
    case ChildGone => s.(childRunning := false)
    case CloseStaging => if s.owner.Gone? then s else s.(closed := true, wasClosed := true)
    case ReleaseOwner => if s.owner.Live? && !s.childRunning then s.(owner := Releasing) else s
    case UnmarkChild => if s.owner.Releasing? then s.(marker := false) else s
    case LoseOwner => s.(owner := Gone)
    case _ => s
  }

  /** stage_lease, one call at a time. */
  function StageDoes(s: State, a: Step): State {
    match a
    case StartStage(id) => if s.At(id).Idle? then s.Moved(id, StageOpening) else s
    case OpenStage(id) =>
      if !s.At(id).StageOpening? then s
      else s.Moved(id, if s.lease.None? then Idle else StageOpened(s.lease.value))
    case LockStage(id) =>
      if !s.At(id).StageOpened? then s
      else s.Moved(id, if s.ExclusivelyHeld(s.At(id).inode) then Idle else StageLocked(s.At(id).inode))
    case CheckClosure(id) =>
      if !s.At(id).StageLocked? then s
      else s.Moved(id, if s.closed then Idle else StageChecked(s.At(id).inode, s.wasClosed))
    case CheckWork(id) =>
      if !s.At(id).StageChecked? then s
      else s.Moved(id, if s.work then Staging(s.At(id).inode, s.At(id).late) else Idle)
    case EndStage(id) => if s.At(id).Staging? then s.Moved(id, Idle) else s
    case _ => s
  }

  /** remove_workspace, one call at a time; a timeout or an error is a crash of the process. */
  function RemoveDoes(s: State, a: Step): State {
    match a
    case StartRemoval(id) => if s.At(id).Idle? && s.owner.Releasing? then s.Moved(id, RemoveMarking) else s
    case PublishClosure(id) =>
      if s.At(id).RemoveMarking? then s.(closed := true, wasClosed := true).Moved(id, RemoveOpening) else s
    case OpenRemoval(id) =>
      if !s.At(id).RemoveOpening? then s
      else if s.lease.Some? then s.Moved(id, RemoveOpened(s.lease.value))
      else s.(lease := Some(s.next), next := s.next + 1).Moved(id, RemoveOpened(s.next))
    case LockRemoval(id) =>
      if s.At(id).RemoveOpened? && !s.Held(s.At(id).inode) then s.Moved(id, Removing(s.At(id).inode)) else s
    case RemovePart(id) =>
      if s.At(id).Removing? && s.work then s.(lockFile := false, marker := false) else s
    case RemoveTree(id) =>
      if s.At(id).Removing?
      then s.(work := false, lockFile := false, marker := false).Moved(id, Removed(s.At(id).inode)) else s
    case UnlinkClosure(id, fails) =>
      if s.At(id).Removed? then s.(closed := s.closed && fails).Moved(id, Unmarked(s.At(id).inode)) else s
    case UnlinkLease(id, fails) =>
      if s.At(id).Unmarked? then s.(lease := if fails then s.lease else None).Moved(id, Idle) else s
    case _ => s
  }

  /** reclaim_stale_workspaces: behind the session lock, or where its file is gone; and orphaned metadata. */
  function ReclaimDoes(s: State, a: Step): State {
    match a
    case Reclaim(id) =>
      if s.At(id).Idle? && s.work && (!s.lockFile || s.owner.Gone?) then s.Moved(id, Reclaiming) else s
    case InspectMarker(id) =>
      if s.At(id).Reclaiming? then s.Moved(id, if s.marker then Idle else RemoveMarking) else s
    case InspectOrphan(id) => if s.At(id).Idle? && !s.work then s.Moved(id, Retiring) else s
    case RetireMetadata(id, lease) =>
      if !s.At(id).Retiring? then s
      else if lease then s.(lease := None).Moved(id, Idle)
      else s.(closed := false).Moved(id, Idle)
    case Crash(id) => s.Moved(id, Idle)
    case _ => s
  }

  /** Each step is one of the four; the others leave it alone. */
  function Do(s: State, a: Step): State {
    match a
    case MarkChild => OwnerDoes(s, a)
    case SpawnChild => OwnerDoes(s, a)
    case ChildGone => OwnerDoes(s, a)
    case CloseStaging => OwnerDoes(s, a)
    case ReleaseOwner => OwnerDoes(s, a)
    case UnmarkChild => OwnerDoes(s, a)
    case LoseOwner => OwnerDoes(s, a)
    case StartStage(_) => StageDoes(s, a)
    case OpenStage(_) => StageDoes(s, a)
    case LockStage(_) => StageDoes(s, a)
    case CheckClosure(_) => StageDoes(s, a)
    case CheckWork(_) => StageDoes(s, a)
    case EndStage(_) => StageDoes(s, a)
    case StartRemoval(_) => RemoveDoes(s, a)
    case PublishClosure(_) => RemoveDoes(s, a)
    case OpenRemoval(_) => RemoveDoes(s, a)
    case LockRemoval(_) => RemoveDoes(s, a)
    case RemovePart(_) => RemoveDoes(s, a)
    case RemoveTree(_) => RemoveDoes(s, a)
    case UnlinkClosure(_, _) => RemoveDoes(s, a)
    case UnlinkLease(_, _) => RemoveDoes(s, a)
    case Reclaim(_) => ReclaimDoes(s, a)
    case InspectMarker(_) => ReclaimDoes(s, a)
    case InspectOrphan(_) => ReclaimDoes(s, a)
    case RetireMetadata(_, _) => ReclaimDoes(s, a)
    case Crash(_) => ReclaimDoes(s, a)
  }

  function Run(s: State, steps: seq<Step>): State
    decreases |steps|
  {
    if |steps| == 0 then s else Run(Do(s, steps[0]), steps[1..])
  }

  /** What one process may rely on. */
  predicate PcInv(s: State, pc: Pc) {
    match pc
    case StageOpened(inode) => s.work ==> inode == 0
    case StageLocked(inode) => s.work ==> inode == 0
    case StageChecked(inode, late) => if s.work then inode == 0 && !late else true
    case Staging(inode, late) => s.work && inode == 0 && !late
    case RemoveMarking => s.owner != Live && !s.childRunning
    case RemoveOpening => s.owner != Live && !s.childRunning && s.wasClosed
    case RemoveOpened(inode) => s.owner != Live && !s.childRunning && s.wasClosed && (s.work ==> inode == 0)
    case Removing(inode) => s.owner != Live && !s.childRunning && s.wasClosed && (s.work ==> inode == 0)
    case Removed(_) => !s.work
    case Unmarked(_) => !s.work
    case Reclaiming => s.owner != Live
    case Retiring => !s.work
    case Idle => true
    case StageOpening => true
  }

  /** An exclusive holder is the only holder. */
  predicate ExclusionInv(procs: map<nat, Pc>) {
    forall i, j | i in procs && j in procs && i != j ::
      (procs[i].Removing? || procs[i].Removed? || procs[i].Unmarked?) ==> !procs[j].Holds(procs[i].inode)
  }

  /** The entries: until the tree is gone the lease is the original one and closure, once published, stays. */
  predicate EntriesInv(s: State) {
    && (s.work ==> s.lease == Some(0))
    && (s.closed ==> s.wasClosed)
    && (s.wasClosed && s.work ==> s.closed)
    && (s.childRunning ==> s.marker && s.work && !s.owner.Releasing?)
    && (s.owner.Live? ==> s.work && s.lockFile)
  }

  predicate StateInv(s: State) {
    EntriesInv(s) && ExclusionInv(s.procs) && forall id | id in s.procs :: PcInv(s, s.procs[id])
  }

  /** A process that takes no lock, with nothing else changed. */
  lemma MoveKeeps(s: State, id: nat, pc: Pc)
    requires StateInv(s) && PcInv(s, pc)
    requires forall n: Inode :: (pc.Exclusive(n) ==> s.At(id).Exclusive(n)) && (pc.Shared(n) ==> s.At(id).Shared(n))
    ensures StateInv(s.Moved(id, pc))
  {
    var t := s.Moved(id, pc);
    forall i, j | i in t.procs && j in t.procs && i != j
                  && (t.procs[i].Removing? || t.procs[i].Removed? || t.procs[i].Unmarked?)
      ensures !t.procs[j].Holds(t.procs[i].inode)
    {
      assert t.procs[i].Exclusive(t.procs[i].inode);
      assert s.At(i).Exclusive(t.procs[i].inode);
      assert t.procs[j].Holds(t.procs[i].inode) ==> s.At(j).Holds(t.procs[i].inode);
    }
    assert forall i | i in t.procs :: PcInv(t, t.procs[i]) <==> PcInv(s, t.procs[i]);
  }

  /** A lock granted: shared when nobody has it exclusively, exclusive when nobody has it. */
  lemma LockKeeps(s: State, id: nat, n: Inode, exclusive: bool)
    requires StateInv(s) && !s.At(id).Holds(n)
    requires PcInv(s, if exclusive then Removing(n) else StageLocked(n))
    requires if exclusive then !s.Held(n) else !s.ExclusivelyHeld(n)
    ensures StateInv(s.Moved(id, if exclusive then Removing(n) else StageLocked(n)))
  {
    var t := s.Moved(id, if exclusive then Removing(n) else StageLocked(n));
    forall i, j | i in t.procs && j in t.procs && i != j
                  && (t.procs[i].Removing? || t.procs[i].Removed? || t.procs[i].Unmarked?)
      ensures !t.procs[j].Holds(t.procs[i].inode)
    {
      if i == id {
        assert !s.procs[j].Holds(n);
      } else if j == id {
        assert s.procs[i].Exclusive(s.procs[i].inode);
      }
    }
    assert forall i | i in t.procs :: PcInv(t, t.procs[i]) <==> PcInv(s, t.procs[i]);
  }

  lemma StageStep(s: State, a: Step)
    requires StateInv(s)
    ensures StateInv(StageDoes(s, a))
  {
    match a
    case StartStage(id) => MoveKeeps(s, id, if s.At(id).Idle? then StageOpening else s.At(id));
    case OpenStage(id) =>
      if s.At(id).StageOpening? {
        MoveKeeps(s, id, if s.lease.None? then Idle else StageOpened(s.lease.value));
      }
    case LockStage(id) =>
      if s.At(id).StageOpened? {
        if s.ExclusivelyHeld(s.At(id).inode) {
          MoveKeeps(s, id, Idle);
        } else {
          LockKeeps(s, id, s.At(id).inode, false);
        }
      }
    case CheckClosure(id) =>
      if s.At(id).StageLocked? {
        MoveKeeps(s, id, if s.closed then Idle else StageChecked(s.At(id).inode, s.wasClosed));
      }
    case CheckWork(id) =>
      if s.At(id).StageChecked? {
        MoveKeeps(s, id, if s.work then Staging(s.At(id).inode, s.At(id).late) else Idle);
      }
    case EndStage(id) =>
      if s.At(id).Staging? {
        MoveKeeps(s, id, Idle);
      }
    case _ =>
  }

  /** Entries changed in a way every process tolerates. */
  lemma EntriesKeep(s: State, t: State)
    requires StateInv(s) && EntriesInv(t) && t.procs == s.procs
    requires forall pc: Pc :: PcInv(s, pc) ==> PcInv(t, pc)
    ensures StateInv(t)
  {
  }

  lemma OwnerStep(s: State, a: Step)
    requires StateInv(s)
    ensures StateInv(OwnerDoes(s, a))
  {
    EntriesKeep(s, OwnerDoes(s, a));
  }

  /** Nobody stages while a remover holds the lease, whatever inode it holds. */
  lemma NobodyStages(s: State, id: nat)
    requires StateInv(s) && s.At(id).Removing?
    ensures forall i | i in s.procs :: !s.procs[i].Staging?
  {
    forall i | i in s.procs
      ensures !s.procs[i].Staging?
    {
      assert s.procs[i].Staging? ==> s.procs[i].Holds(s.At(id).inode);
    }
  }

  lemma TreeRemoved(s: State, id: nat)
    requires StateInv(s) && s.At(id).Removing?
    ensures StateInv(s.(work := false, lockFile := false, marker := false))
  {
    NobodyStages(s, id);
    var t := s.(work := false, lockFile := false, marker := false);
    assert forall i | i in s.procs :: PcInv(s, s.procs[i]) ==> PcInv(t, s.procs[i]);
  }

  lemma RemoveStep(s: State, a: Step)
    requires StateInv(s)
    ensures StateInv(RemoveDoes(s, a))
  {
    match a
    case StartRemoval(id) =>
      if s.At(id).Idle? && s.owner.Releasing? {
        MoveKeeps(s, id, RemoveMarking);
      }
    case PublishClosure(id) =>
      if s.At(id).RemoveMarking? {
        var t := s.(closed := true, wasClosed := true);
        EntriesKeep(s, t);
        MoveKeeps(t, id, RemoveOpening);
      }
    case OpenRemoval(id) =>
      if s.At(id).RemoveOpening? {
        var t := if s.lease.Some? then s else s.(lease := Some(s.next), next := s.next + 1);
        EntriesKeep(s, t);
        MoveKeeps(t, id, RemoveOpened(t.lease.value));
      }
    case LockRemoval(id) =>
      if s.At(id).RemoveOpened? && !s.Held(s.At(id).inode) {
        LockKeeps(s, id, s.At(id).inode, true);
      }
    case _ =>
      if a.RemovePart? || a.RemoveTree? || a.UnlinkClosure? || a.UnlinkLease? {
        RemoveFinalStep(s, a);
      }
  }

  lemma RemoveFinalStep(s: State, a: Step)
    requires StateInv(s) && (a.RemovePart? || a.RemoveTree? || a.UnlinkClosure? || a.UnlinkLease?)
    ensures StateInv(RemoveDoes(s, a))
  {
    match a
    case RemovePart(id) => EntriesKeep(s, RemoveDoes(s, a));
    case RemoveTree(id) =>
      if s.At(id).Removing? {
        TreeRemoved(s, id);
        MoveKeeps(s.(work := false, lockFile := false, marker := false), id, Removed(s.At(id).inode));
      }
    case UnlinkClosure(id, fails) =>
      if s.At(id).Removed? {
        var t := s.(closed := s.closed && fails);
        EntriesKeep(s, t);
        MoveKeeps(t, id, Unmarked(s.At(id).inode));
      }
    case UnlinkLease(id, fails) =>
      if s.At(id).Unmarked? {
        var t := s.(lease := if fails then s.lease else None);
        EntriesKeep(s, t);
        MoveKeeps(t, id, Idle);
      }
  }

  lemma ReclaimStep(s: State, a: Step)
    requires StateInv(s)
    ensures StateInv(ReclaimDoes(s, a))
  {
    match a
    case Reclaim(id) =>
      if s.At(id).Idle? && s.work && (!s.lockFile || s.owner.Gone?) {
        MoveKeeps(s, id, Reclaiming);
      }
    case InspectMarker(id) =>
      if s.At(id).Reclaiming? {
        MoveKeeps(s, id, if s.marker then Idle else RemoveMarking);
      }
    case InspectOrphan(id) =>
      if s.At(id).Idle? && !s.work {
        MoveKeeps(s, id, Retiring);
      }
    case RetireMetadata(id, lease) =>
      if s.At(id).Retiring? {
        var t := if lease then s.(lease := None) else s.(closed := false);
        EntriesKeep(s, t);
        MoveKeeps(t, id, Idle);
      }
    case Crash(id) => MoveKeeps(s, id, Idle);
    case _ =>
  }

  /** What no step undoes: closure stays published history, and a removed tree stays removed. */
  predicate Later(s: State, t: State) {
    && (s.wasClosed ==> t.wasClosed)
    && (!s.work ==> !t.work)
  }

  lemma DoIsOneOfFour(s: State, a: Step)
    ensures Do(s, a) in {OwnerDoes(s, a), StageDoes(s, a), RemoveDoes(s, a), ReclaimDoes(s, a)}
  {
  }

  lemma OwnerLater(s: State, a: Step)
    ensures Later(s, OwnerDoes(s, a))
  {
  }

  lemma StageLater(s: State, a: Step)
    ensures Later(s, StageDoes(s, a))
  {
  }

  lemma RemoveLater(s: State, a: Step)
    ensures Later(s, RemoveDoes(s, a))
  {
  }

  lemma ReclaimLater(s: State, a: Step)
    ensures Later(s, ReclaimDoes(s, a))
  {
  }

  lemma StepLater(s: State, a: Step)
    ensures Later(s, Do(s, a))
  {
    OwnerLater(s, a);
    StageLater(s, a);
    RemoveLater(s, a);
    ReclaimLater(s, a);
    DoIsOneOfFour(s, a);
  }

  lemma StepKeeps(s: State, a: Step)
    requires StateInv(s)
    ensures StateInv(Do(s, a)) && Later(s, Do(s, a))
  {
    StepLater(s, a);
    OwnerStep(s, a);
    StageStep(s, a);
    RemoveStep(s, a);
    ReclaimStep(s, a);
    DoIsOneOfFour(s, a);
  }

  /** Every interleaving of every number of processes. */
  lemma {:induction false} EveryRun(s: State, steps: seq<Step>)
    requires StateInv(s)
    ensures StateInv(Run(s, steps)) && Later(s, Run(s, steps))
    decreases |steps|
  {
    if |steps| > 0 {
      StepKeeps(s, steps[0]);
      EveryRun(Do(s, steps[0]), steps[1..]);
    }
  }

  /**
   * No admitted stage overlaps a removal of its workspace: while one stages,
   * the tree is there and no remover holds the lease, and no child is ever
   * running when a tree is removed.
   */
  lemma StagesExcludeRemoval(steps: seq<Step>, i: nat, j: nat)
    ensures
      var s := Run(Allocated(), steps);
      && (s.At(i).Staging? ==> s.work && !s.At(j).Removing? && !s.At(j).Removed?)
      && (s.At(j).Removing? ==> !s.childRunning && s.owner != Live)
  {
    EveryRun(Allocated(), steps);
    var s := Run(Allocated(), steps);
    if s.At(j).Removing? {
      NobodyStages(s, j);
    }
  }

  /**
   * Once closure is published, no later admission check succeeds, even for a
   * stage that locked a lease inode since unlinked: a stage whose check comes
   * after publication never stages.
   */
  lemma ClosureIsFinal(before: seq<Step>, id: nat, after: seq<Step>)
    requires Run(Allocated(), before).wasClosed && Run(Allocated(), before).At(id).StageLocked?
    ensures
      var s := Do(Run(Allocated(), before), CheckClosure(id));
      && (s.At(id).Idle? || (s.At(id).StageChecked? && !s.work))
      && !Do(s, CheckWork(id)).At(id).Staging?
      && (Run(s, after).At(id) == s.At(id) ==> !Do(Run(s, after), CheckWork(id)).At(id).Staging?)
  {
    EveryRun(Allocated(), before);
    var s := Run(Allocated(), before);
    StepKeeps(s, CheckClosure(id));
    EveryRun(Do(s, CheckClosure(id)), after);
  }

  /** A lease inode a delayed stage has locked may be unlinked and replaced, but only after the tree is gone. */
  lemma StaleLeaseMeansNoTree(steps: seq<Step>, id: nat, n: Inode)
    requires Run(Allocated(), steps).At(id).Shared(n) && Run(Allocated(), steps).lease != Some(n)
    ensures !Run(Allocated(), steps).work
    ensures !Run(Allocated(), steps).At(id).Staging?
  {
    EveryRun(Allocated(), steps);
  }

  /** The process that makes a step; the owner's own steps are nobody's. */
  function Of(a: Step): Option<nat> {
    match a
    case MarkChild => None
    case SpawnChild => None
    case ChildGone => None
    case CloseStaging => None
    case ReleaseOwner => None
    case UnmarkChild => None
    case LoseOwner => None
    case Crash(id) => Some(id)
    case StartStage(id) => Some(id)
    case OpenStage(id) => Some(id)
    case LockStage(id) => Some(id)
    case CheckClosure(id) => Some(id)
    case CheckWork(id) => Some(id)
    case EndStage(id) => Some(id)
    case StartRemoval(id) => Some(id)
    case PublishClosure(id) => Some(id)
    case OpenRemoval(id) => Some(id)
    case LockRemoval(id) => Some(id)
    case RemovePart(id) => Some(id)
    case RemoveTree(id) => Some(id)
    case UnlinkClosure(id, _) => Some(id)
    case UnlinkLease(id, _) => Some(id)
    case Reclaim(id) => Some(id)
    case InspectMarker(id) => Some(id)
    case InspectOrphan(id) => Some(id)
    case RetireMetadata(id, _) => Some(id)
  }

  /** Steps of the owner and of other processes. */
  predicate Elsewhere(steps: seq<Step>, id: nat) {
    forall a | a in steps :: Of(a) != Some(id)
  }

  lemma OwnerElsewhere(s: State, a: Step, id: nat)
    ensures OwnerDoes(s, a).At(id) == s.At(id)
  {
  }

  lemma StageElsewhere(s: State, a: Step, id: nat)
    requires Of(a) != Some(id)
    ensures StageDoes(s, a).At(id) == s.At(id)
  {
  }

  lemma RemoveElsewhere(s: State, a: Step, id: nat)
    requires Of(a) != Some(id)
    ensures RemoveDoes(s, a).At(id) == s.At(id)
  {
  }

  lemma ReclaimElsewhere(s: State, a: Step, id: nat)
    requires Of(a) != Some(id)
    ensures ReclaimDoes(s, a).At(id) == s.At(id)
  {
  }

  lemma StepElsewhere(s: State, a: Step, id: nat)
    requires Of(a) != Some(id)
    ensures Do(s, a).At(id) == s.At(id)
  {
    OwnerElsewhere(s, a, id);
    StageElsewhere(s, a, id);
    RemoveElsewhere(s, a, id);
    ReclaimElsewhere(s, a, id);
    DoIsOneOfFour(s, a);
  }

  lemma RunOne(s: State, a: Step)
    ensures Run(s, [a]) == Do(s, a)
  {
  }

  lemma RunThree(s: State, a: Step, b: Step, c: Step)
    ensures Run(s, [a, b]) == Do(Do(s, a), b)
    ensures Run(s, [a, b, c]) == Do(Do(Do(s, a), b), c)
  {
    assert [a, b][1..] == [b] && [a, b, c][1..] == [b, c];
    RunOne(Do(s, a), b);
    assert Run(Do(s, a), [b, c]) == Run(Do(Do(s, a), b), [b, c][1..]);
    RunOne(Do(Do(s, a), b), c);
  }

  lemma RunFour(s: State, a: Step, b: Step, c: Step, d: Step)
    ensures Run(s, [a, b, c, d]) == Do(Do(Do(Do(s, a), b), c), d)
  {
    assert [a, b, c, d][1..] == [b, c, d];
    RunThree(Do(s, a), b, c, d);
  }

  lemma RunFive(s: State, a: Step, b: Step, c: Step, d: Step, e: Step)
    ensures Run(s, [a, b, c, d, e]) == Do(Do(Do(Do(Do(s, a), b), c), d), e)
  {
    assert [a, b, c, d, e][1..] == [b, c, d, e];
    RunFour(Do(s, a), b, c, d, e);
  }

  /** A process is where it was while others go on. */
  lemma {:induction false} RunElsewhere(s: State, steps: seq<Step>, id: nat)
    requires Elsewhere(steps, id)
    ensures Run(s, steps).At(id) == s.At(id)
    decreases |steps|
  {
    if |steps| > 0 {
      assert steps[0] in steps;
      StepElsewhere(s, steps[0], id);
      assert forall a | a in steps[1..] :: a in steps;
      RunElsewhere(Do(s, steps[0]), steps[1..], id);
    }
  }

  /** One step of a process, then others: it stays where its step took it. */
  lemma StepThenOthers(s: State, a: Step, others: seq<Step>, id: nat)
    requires Elsewhere(others, id)
    ensures Run(s, [a] + others).At(id) == Do(s, a).At(id)
  {
    assert ([a] + others)[1..] == others;
    RunElsewhere(Do(s, a), others, id);
  }

  /** Nobody holds an inode exclusively. */
  predicate Free(s: State, n: Inode) {
    forall i | i in s.procs :: !s.procs[i].Exclusive(n)
  }

  /**
   * A stage is admitted, exactly: whatever others do between its calls, it
   * stages if and only if the lease existed when it opened it, nobody held
   * that inode exclusively when it locked it, closure was absent when it
   * looked for it, and the tree was there when it looked for that.
   */
  lemma StageExactly(s: State, id: nat, others: seq<seq<Step>>)
    requires s.At(id).Idle? && |others| == 4 && forall i | 0 <= i < 4 :: Elsewhere(others[i], id)
    ensures
      var opening := Run(s, [StartStage(id)] + others[0]);
      var locking := Run(opening, [OpenStage(id)] + others[1]);
      var looking := Run(locking, [LockStage(id)] + others[2]);
      var entering := Run(looking, [CheckClosure(id)] + others[3]);
      var end := Run(entering, [CheckWork(id)]);
      && (end.At(id).Staging? <==>
            && opening.lease.Some?
            && Free(locking, opening.lease.value)
            && !looking.closed
            && entering.work)
      && (end.At(id).Staging? ==> end.At(id).inode == opening.lease.value)
      && (!end.At(id).Staging? ==> end.At(id).Idle?)
  {
    StepThenOthers(s, StartStage(id), others[0], id);
    var opening := Run(s, [StartStage(id)] + others[0]);
    StepThenOthers(opening, OpenStage(id), others[1], id);
    var locking := Run(opening, [OpenStage(id)] + others[1]);
    StepThenOthers(locking, LockStage(id), others[2], id);
    var looking := Run(locking, [LockStage(id)] + others[2]);
    StepThenOthers(looking, CheckClosure(id), others[3], id);
    var entering := Run(looking, [CheckClosure(id)] + others[3]);
    RunOne(entering, CheckWork(id));
    StageCalls(opening, locking, looking, entering, id);
  }

  /** What the four calls make of the states they find. */
  lemma StageCalls(opening: State, locking: State, looking: State, entering: State, id: nat)
    requires opening.At(id).StageOpening? && locking.At(id) == Do(opening, OpenStage(id)).At(id)
    requires looking.At(id) == Do(locking, LockStage(id)).At(id)
    requires entering.At(id) == Do(looking, CheckClosure(id)).At(id)
    ensures
      var end := Do(entering, CheckWork(id));
      && (end.At(id).Staging? <==>
            && opening.lease.Some?
            && Free(locking, opening.lease.value)
            && !looking.closed
            && entering.work)
      && (end.At(id).Staging? ==> end.At(id).inode == opening.lease.value)
      && (!end.At(id).Staging? ==> end.At(id).Idle?)
  {
  }

  /** Nobody else in the way: an idle process that stages from here is admitted exactly when the entries allow it. */
  lemma AloneStageExactly(s: State, id: nat)
    requires s.At(id).Idle?
    ensures
      Run(s, [StartStage(id), OpenStage(id), LockStage(id), CheckClosure(id), CheckWork(id)]).At(id).Staging? <==>
        && s.lease.Some? && Free(s, s.lease.value)
        && !s.closed && s.work
  {
    RunFive(s, StartStage(id), OpenStage(id), LockStage(id), CheckClosure(id), CheckWork(id));
    var opening := Do(s, StartStage(id));
    var locking := Do(opening, OpenStage(id));
    var looking := Do(locking, LockStage(id));
    var n := if s.lease.Some? then s.lease.value else 0;
    StageMovesOnly(s, StartStage(id), n);
    StageMovesOnly(opening, OpenStage(id), n);
    StageMovesOnly(locking, LockStage(id), n);
    StageMovesOnly(looking, CheckClosure(id), n);
    StageCalls(opening, locking, looking, Do(looking, CheckClosure(id)), id);
  }

  /** A process that held nothing exclusively, and still does not, frees and takes nothing. */
  lemma MoveFrees(s: State, id: nat, pc: Pc, n: Inode)
    requires !s.At(id).Exclusive(n) && !pc.Exclusive(n)
    ensures Free(s.Moved(id, pc), n) <==> Free(s, n)
  {
    var t := s.Moved(id, pc);
    assert forall i | i in s.procs && i != id :: t.procs[i] == s.procs[i];
    assert forall i | i in t.procs && i != id :: i in s.procs;
  }

  /** A stage's calls change no entry, and take no exclusive lock. */
  lemma StageMovesOnly(s: State, a: Step, n: Inode)
    ensures StageDoes(s, a) == s.(procs := StageDoes(s, a).procs)
    ensures Free(StageDoes(s, a), n) <==> Free(s, n)
  {
    var t := StageDoes(s, a);
    if t != s {
      assert t == s.Moved(a.id, t.At(a.id));
      MoveFrees(s, a.id, t.At(a.id), n);
    }
  }

  /**
   * A remover that waits for the lease gets it, exactly when every holder is
   * gone, whatever others did meanwhile; until then it waits on.
   */
  lemma RemoverGetsTheLock(s: State, id: nat, others: seq<Step>)
    requires s.At(id).RemoveOpened? && Elsewhere(others, id)
    ensures
      var waiting := Run(s, others);
      var end := Run(waiting, [LockRemoval(id)]);
      && (end.At(id).Removing? <==> forall i | i in waiting.procs :: !waiting.procs[i].Holds(s.At(id).inode))
      && (if end.At(id).Removing? then end.At(id).inode == s.At(id).inode else end == waiting)
  {
    RunElsewhere(s, others, id);
    RunOne(Run(s, others), LockRemoval(id));
  }

  lemma TreeGoes(s: State, id: nat)
    requires s.At(id).Removing?
    ensures
      var t := Do(Do(s, RemovePart(id)), RemoveTree(id));
      && !t.work && !t.lockFile && !t.marker && t.At(id).Removed?
      && t.wasClosed == s.wasClosed && t.owner == s.owner
  {
  }

  lemma MetadataGoes(s: State, id: nat)
    requires s.At(id).Removed?
    ensures
      var t := Do(Do(s, UnlinkClosure(id, false)), UnlinkLease(id, false));
      && !t.closed && t.lease.None? && t.At(id).Idle?
      && t == s.(closed := t.closed, lease := t.lease, procs := t.procs)
  {
  }

  /**
   * With the lock, nobody in the way and no error, a removal takes the tree,
   * the closure marker and the lease, in that order, and lets go.
   */
  lemma RemovalCompletes(s: State, id: nat)
    requires s.At(id).Removing?
    ensures
      var end := Run(s, [RemovePart(id), RemoveTree(id), UnlinkClosure(id, false), UnlinkLease(id, false)]);
      && !end.work && !end.closed && end.lease.None? && !end.lockFile && !end.marker && end.At(id).Idle?
      && end.wasClosed == s.wasClosed && end.owner == s.owner
  {
    RunFour(s, RemovePart(id), RemoveTree(id), UnlinkClosure(id, false), UnlinkLease(id, false));
    TreeGoes(s, id);
    MetadataGoes(Do(Do(s, RemovePart(id)), RemoveTree(id)), id);
  }

  /** A removal starts with the owner that releases its workspace, and publishes closure before it opens the lease. */
  lemma RemovalStarts(s: State, id: nat)
    requires s.At(id).Idle?
    ensures
      var end := Run(s, [StartRemoval(id), PublishClosure(id), OpenRemoval(id)]);
      && (end.At(id).RemoveOpened? <==> s.owner.Releasing?)
      && (s.owner.Releasing? ==> end.closed && end.work == s.work && end.lease == Some(end.At(id).inode))
      && (s.owner.Releasing? && s.lease.Some? ==> end.lease == s.lease)
      && (!s.owner.Releasing? ==> end == s)
  {
    RunThree(s, StartRemoval(id), PublishClosure(id), OpenRemoval(id));
  }

  /**
   * A reclaimer goes on to remove a workspace exactly when it is there, its
   * owner is known to be gone (or its lock file is missing) and it carries no
   * marker of an unconfirmed child.
   */
  lemma ReclaimExactly(s: State, id: nat)
    requires s.At(id).Idle?
    ensures Run(s, [Reclaim(id), InspectMarker(id)]).At(id).RemoveMarking? <==>
            s.work && (!s.lockFile || s.owner.Gone?) && !s.marker
  {
    RunThree(s, Reclaim(id), InspectMarker(id), InspectMarker(id));
  }

  /** Orphaned metadata is retired exactly where there is no workspace. */
  lemma RetireExactly(s: State, id: nat, lease: bool)
    requires s.At(id).Idle?
    ensures
      var end := Run(s, [InspectOrphan(id), RetireMetadata(id, lease)]);
      && end.lease == (if lease && !s.work then None else s.lease)
      && end.closed == (s.closed && (lease || s.work))
  {
    RunThree(s, InspectOrphan(id), RetireMetadata(id, lease), InspectOrphan(id));
  }

  /** A live owner can run a child, marked as long as it runs, and release the workspace once that is gone. */
  lemma OwnerRunsChild(s: State)
    requires s.owner.Live? && s.work
    ensures
      var running := Run(s, [MarkChild, SpawnChild]);
      && running.childRunning && running.marker
      && Run(running, [ReleaseOwner]).owner.Live?
      && Run(running, [ChildGone, ReleaseOwner]).owner.Releasing?
  {
    RunThree(s, MarkChild, SpawnChild, SpawnChild);
    var running := Run(s, [MarkChild, SpawnChild]);
    RunOne(running, ReleaseOwner);
    RunThree(running, ChildGone, ReleaseOwner, SpawnChild);
  }
}
