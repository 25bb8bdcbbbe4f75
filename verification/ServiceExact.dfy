/** Exactly what a server thread leaves behind when nothing else runs: from the lock to serving,
    after a stop, and after every call that can fail. */
module ServiceExact {
  import opened ServiceProtocol
  import opened ServiceInvariant
  import opened ServiceTheorems
  import opened Wrappers

  // ----------------------------------------------------- steps of one thread

  lemma MoveAgain(s: State, p: Pid, u: Server, v: Server)
    requires p in s.procs
    ensures At(At(s, p, u), p, v) == At(s, p, v)
    ensures At(s, p, u).procs.Keys == s.procs.Keys && p in At(s, p, u).procs && At(s, p, u).procs[p].server == u
  {
    assert s.procs[p := Process(u, s.procs[p].client)][p := Process(v, s.procs[p].client)]
      == s.procs[p := Process(v, s.procs[p].client)];
  }

  lemma Stays(s: State, p: Pid)
    requires p in s.procs
    ensures At(s, p, s.procs[p].server) == s
  {
    assert s.procs[p := s.procs[p]] == s.procs;
  }

  /** `n` steps of the same action, from where `m` of them have led. */
  lemma {:induction false} TimesMore(s: State, a: Action, m: nat, n: nat)
    ensures Run(s, Times(a, m + n)) == Run(Run(s, Times(a, m)), Times(a, n))
  {
    hide Step, Run;
    if n == 0 {
      assert Run(Run(s, Times(a, m)), []) == Run(s, Times(a, m)) by { NoSteps(Run(s, Times(a, m))); }
    } else {
      TimesMore(s, a, m, n - 1);
      RunTimes(s, a, m + n);
      RunTimes(Run(s, Times(a, m)), a, n);
    }
  }

  lemma NoSteps(s: State)
    ensures Run(s, []) == s
  {}

  function Go(p: Pid): Action
  {
    ServerStep(p, true)
  }

  lemma OneGo(s: State, p: Pid)
    ensures Run(s, Times(Go(p), 1)) == Step(s, Go(p))
  {
    hide Step;
    assert Times(Go(p), 1) == Times(Go(p), 0) + [Go(p)];
    RunTimes(s, Go(p), 1);
  }

  // ------------------------------------------------------- coming up afresh

  /** A server has made and published segment `g` and its queue. */
  function Fresh(s: State, p: Pid, owner: Owner): State
  {
    s.(shm := Some(|s.segments|), mq := Some(|s.queues|),
       segments := s.segments + [Segment(p, owner)], queues := s.queues + [|s.segments|])
  }

  /** The states between the call of create and serving, when no name is bound. */
  function Creating(s: State, p: Pid, n: nat, k: nat): State
    requires p in s.procs && 1 <= k <= 8
  {
    var g, q := |s.segments|, |s.queues|;
    var bound := s.(shm := Some(g), segments := s.segments + [Segment(p, Unset)]);
    if k == 1 then At(bound, p, Truncate(n, g))
    else if k == 2 then At(bound, p, Map(n, g))
    else if k == 3 then At(bound, p, Zero(g))
    else if k == 4 then At(bound, p, QueueCreate(g))
    else if k == 5 then At(Fresh(s, p, Unset), p, Publish(g, q))
    else if k == 6 then At(Fresh(s, p, Unset), p, StorePid(g, q))
    else if k == 7 then At(Fresh(s, p, Owned(p)), p, SpawnRumble(g, q))
    else At(Fresh(s, p, Owned(p)), p, Serving(g, q))
  }

  lemma CreatingEarly(s: State, p: Pid, n: nat, k: nat)
    requires p in s.procs && s.mq == None && 1 <= k < 4
    ensures Step(Creating(s, p, n, k), Go(p)) == Creating(s, p, n, k + 1)
  {
    var g := |s.segments|;
    var bound := s.(shm := Some(g), segments := s.segments + [Segment(p, Unset)]);
    var u := if k == 1 then Truncate(n, g) else if k == 2 then Map(n, g) else Zero(g);
    MoveAgain(bound, p, u, if k == 1 then Map(n, g) else if k == 2 then Zero(g) else QueueCreate(g));
    assert bound.segments[g := bound.segments[g]] == bound.segments;
  }

  lemma CreatingLate(s: State, p: Pid, n: nat, k: nat)
    requires p in s.procs && s.mq == None && 4 <= k < 6
    ensures Step(Creating(s, p, n, k), Go(p)) == Creating(s, p, n, k + 1)
  {
    var g, q := |s.segments|, |s.queues|;
    var v := if k == 4 then QueueCreate(g) else Publish(g, q);
    MoveAgain(Fresh(s, p, Unset), p, v, if k == 4 then Publish(g, q) else StorePid(g, q));
  }

  lemma CreatingLast(s: State, p: Pid, n: nat, k: nat)
    requires p in s.procs && s.mq == None && 6 <= k < 8
    ensures Step(Creating(s, p, n, k), Go(p)) == Creating(s, p, n, k + 1)
  {
    var g, q := |s.segments|, |s.queues|;
    MoveAgain(Fresh(s, p, Unset), p, StorePid(g, q), SpawnRumble(g, q));
    MoveAgain(Fresh(s, p, Owned(p)), p, SpawnRumble(g, q), Serving(g, q));
    assert (s.segments + [Segment(p, Unset)])[g := Segment(p, Owned(p))] == s.segments + [Segment(p, Owned(p))];
  }

  lemma CreatingFirst(s: State, p: Pid, n: nat)
    requires p in s.procs && s.procs[p].server == ShmCreate(n) && s.shm == None
    ensures Step(s, Go(p)) == Creating(s, p, n, 1)
  {}

  lemma {:induction false} CreatesUpTo(s: State, p: Pid, n: nat, k: nat)
    requires p in s.procs && s.procs[p].server == ShmCreate(n) && s.shm == None && s.mq == None && 1 <= k <= 8
    ensures Run(s, Times(Go(p), k)) == Creating(s, p, n, k)
  {
    hide Step, Run, Creating;
    if k == 1 {
      OneGo(s, p);
      CreatingFirst(s, p, n);
    } else {
      CreatesUpTo(s, p, n, k - 1);
      RunTimes(s, Go(p), k);
      if k <= 4 { CreatingEarly(s, p, n, k - 1); }
      else if k <= 6 { CreatingLate(s, p, n, k - 1); }
      else { CreatingLast(s, p, n, k - 1); }
    }
  }

  /** With no name bound a server is up after exactly eight steps: a new segment that it made and
      that names it, and the one queue for it. */
  lemma Creates(s: State, p: Pid, n: nat)
    requires p in s.procs && s.procs[p].server == ShmCreate(n) && s.shm == None && s.mq == None
    ensures Run(s, Times(Go(p), 8)) == At(Fresh(s, p, Owned(p)), p, Serving(|s.segments|, |s.queues|))
  {
    CreatesUpTo(s, p, n, 8);
    hide Run;
  }

  // ---------------------------------------------------- clearing up a dead one

  /** The owner field of a segment is marked and both names are unbound. */
  function Cleared(s: State, g: SegmentId): State
  {
    Mark(s, g, Broken).(shm := None, mq := None)
  }

  /** The states of a server that finds the name bound to a dead segment, up to the verdict:
      one read, or six if the owner is unset. */
  function Finding(s: State, p: Pid, g: SegmentId, k: nat): State
    requires p in s.procs && 1 <= k <= 9
  {
    At(s, p, if k == 1 then PokeOpen(1) else if k == 2 then PokeMap(1, g)
             else if k <= 8 then PokeRead(1, g, 8 - k) else PokeKill(1, g, Unset))
  }

  lemma FindingNext(s: State, p: Pid, g: SegmentId, k: nat)
    requires p in s.procs && s.shm == Some(g) && g < |s.segments|
    requires k == 1 || k == 2 || (s.segments[g].master == Unset && 3 <= k < 9)
    ensures Step(Finding(s, p, g, k), Go(p)) == Finding(s, p, g, k + 1)
  {
    hide Step;
    if k <= 2 { OpensAgain(s, p, g, k == 1); } else { ReadsAgain(s, p, g, 8 - k); }
  }

  lemma OpensAgain(s: State, p: Pid, g: SegmentId, open: bool)
    requires p in s.procs && s.shm == Some(g)
    ensures Step(At(s, p, if open then PokeOpen(1) else PokeMap(1, g)), Go(p))
      == At(s, p, if open then PokeMap(1, g) else PokeRead(1, g, 5))
  {
    if open { MoveAgain(s, p, PokeOpen(1), PokeMap(1, g)); } else { MoveAgain(s, p, PokeMap(1, g), PokeRead(1, g, 5)); }
  }

  lemma ReadsAgain(s: State, p: Pid, g: SegmentId, tries: nat)
    requires p in s.procs && g < |s.segments| && s.segments[g].master == Unset
    ensures Step(At(s, p, PokeRead(1, g, tries)), Go(p))
      == At(s, p, if tries > 0 then PokeRead(1, g, tries - 1) else PokeKill(1, g, Unset))
  {
    MoveAgain(s, p, PokeRead(1, g, tries), if tries > 0 then PokeRead(1, g, tries - 1) else PokeKill(1, g, Unset));
  }

  lemma FindingFirst(s: State, p: Pid, g: SegmentId)
    requires p in s.procs && s.procs[p].server == ShmCreate(1) && s.shm == Some(g)
    ensures Step(s, Go(p)) == Finding(s, p, g, 1)
  {}

  lemma {:induction false} FindsUpTo(s: State, p: Pid, g: SegmentId, k: nat)
    requires p in s.procs && s.procs[p].server == ShmCreate(1) && s.shm == Some(g) && g < |s.segments|
    requires 1 <= k <= if s.segments[g].master == Unset then 9 else 3
    ensures Run(s, Times(Go(p), k)) == Finding(s, p, g, k)
  {
    hide Step, Run, Finding;
    if k == 1 {
      OneGo(s, p);
      FindingFirst(s, p, g);
    } else {
      FindsUpTo(s, p, g, k - 1);
      RunTimes(s, Go(p), k);
      FindingNext(s, p, g, k - 1);
    }
  }

  lemma SeesOwner(s: State, p: Pid, g: SegmentId)
    requires p in s.procs && g < |s.segments| && s.segments[g].master != Unset
    ensures Step(Finding(s, p, g, 3), Go(p)) == At(s, p, PokeKill(1, g, s.segments[g].master))
  {
    MoveAgain(s, p, PokeRead(1, g, 5), PokeKill(1, g, s.segments[g].master));
  }

  /** How many steps the verdict takes. */
  function LookSteps(owner: Owner): nat
  {
    if owner == Unset then 9 else 4
  }

  lemma Looks(s: State, p: Pid, g: SegmentId)
    requires p in s.procs && s.procs[p].server == ShmCreate(1) && s.shm == Some(g) && g < |s.segments|
    ensures Run(s, Times(Go(p), LookSteps(s.segments[g].master)))
      == At(s, p, PokeKill(1, g, s.segments[g].master))
  {
    hide Step, Run;
    if s.segments[g].master == Unset {
      FindsUpTo(s, p, g, 9);
    } else {
      FindsUpTo(s, p, g, 3);
      RunTimes(s, Go(p), 4);
      hide Finding;
      SeesOwner(s, p, g);
    }
  }

  lemma ClearsKill(s: State, p: Pid, g: SegmentId, seen: Owner)
    requires p in s.procs && !Live(s, seen)
    ensures Step(At(s, p, PokeKill(1, g, seen)), Go(p)) == At(s, p, PokeMark(1, g))
  {
    MoveAgain(s, p, PokeKill(1, g, seen), PokeMark(1, g));
  }

  lemma ClearsMark(s: State, p: Pid, g: SegmentId)
    requires p in s.procs
    ensures Step(At(s, p, PokeMark(1, g)), Go(p)) == At(Mark(s, g, Broken), p, PokeQueueUnlink(1, g))
  {
    MoveAgain(Mark(s, g, Broken), p, PokeMark(1, g), PokeQueueUnlink(1, g));
  }

  lemma ClearsQueue(s: State, p: Pid, g: SegmentId)
    requires p in s.procs
    ensures Step(At(s, p, PokeQueueUnlink(1, g)), Go(p)) == At(s.(mq := None), p, PokeUnlink(1, g))
  {
    MoveAgain(s.(mq := None), p, PokeQueueUnlink(1, g), PokeUnlink(1, g));
  }

  lemma ClearsName(s: State, p: Pid, g: SegmentId)
    requires p in s.procs
    ensures Step(At(s, p, PokeUnlink(1, g)), Go(p)) == At(s.(shm := None), p, ShmCreate(2))
  {
    MoveAgain(s.(shm := None), p, PokeUnlink(1, g), ShmCreate(2));
  }

  lemma Clears(s: State, p: Pid, g: SegmentId, seen: Owner)
    requires p in s.procs && !Live(s, seen)
    ensures Run(At(s, p, PokeKill(1, g, seen)), Times(Go(p), 4)) == At(Cleared(s, g), p, ShmCreate(2))
  {
    hide Step, Run;
    var kill := At(s, p, PokeKill(1, g, seen));
    OneGo(kill, p);
    RunTimes(kill, Go(p), 2);
    RunTimes(kill, Go(p), 3);
    RunTimes(kill, Go(p), 4);
    ClearsKill(s, p, g, seen);
    ClearsMark(s, p, g);
    ClearsQueue(Mark(s, g, Broken), p, g);
    ClearsName(Mark(s, g, Broken).(mq := None), p, g);
    hide At;
  }

  /** The steps a server needs from its first call of create: 8 when no name is bound, 16 to
      clear up a segment whose owner is set, 21 when the owner is unset. */
  function UpSteps(s: State): nat
  {
    if s.shm.None? then 8 else LookSteps(MasterOf(s, s.shm.value)) + 12
  }

  /** The names and segments after that: what was bound is marked broken. */
  function Up(s: State, p: Pid): State
  {
    Fresh(if s.shm.None? then s else Cleared(s, s.shm.value), p, Owned(p))
  }

  lemma HolderAlone(s: State, p: Pid)
    requires Inv(s) && p in s.procs && s.procs[p].server == ShmCreate(1)
    ensures s.shm.None? ==> s.mq.None?
    ensures s.shm.Some? ==> s.shm.value < |s.segments| && !Live(s, s.segments[s.shm.value].master)
    ensures s.lock == Some(p)
  {
    if s.shm.Some? && Live(s, s.segments[s.shm.value].master) { OwnerCurrent(s, s.shm.value); }
  }

  lemma CreatesAgain(s: State, p: Pid)
    requires p in s.procs && s.shm == None && s.mq == None
    ensures Run(At(s, p, ShmCreate(2)), Times(Go(p), 8)) == At(Fresh(s, p, Owned(p)), p, Serving(|s.segments|, |s.queues|))
  {
    hide Run;
    MoveAgain(s, p, ShmCreate(2), ShmCreate(2));
    Creates(At(s, p, ShmCreate(2)), p, 2);
    MoveAgain(Fresh(s, p, Owned(p)), p, ShmCreate(2), Serving(|s.segments|, |s.queues|));
  }

  lemma UpAfterClearing(s: State, p: Pid, g: SegmentId)
    requires p in s.procs && s.procs[p].server == ShmCreate(1) && s.shm == Some(g) && g < |s.segments|
    requires !Live(s, s.segments[g].master)
    ensures Run(s, Times(Go(p), LookSteps(s.segments[g].master) + 12))
      == At(Fresh(Cleared(s, g), p, Owned(p)), p, Serving(|s.segments|, |s.queues|))
  {
    hide Run, At, Fresh, Cleared, Times, LookSteps, Live;
    var n := LookSteps(s.segments[g].master);
    ClearedNames(s, g);
    Looks(s, p, g);
    Clears(s, p, g, s.segments[g].master);
    TimesMore(s, Go(p), n, 4);
    CreatesAgain(Cleared(s, g), p);
    TimesMore(s, Go(p), n + 4, 8);
  }

  lemma ClearedNames(s: State, g: SegmentId)
    ensures var r := Cleared(s, g);
      r.shm == None == r.mq && r.procs == s.procs && |r.segments| == |s.segments| && r.queues == s.queues
  {}

  /** From any reachable state a process that has just taken the lock, and is left to run, is
      serving after exactly so many steps, and this is what has changed. */
  lemma UpExactly(before: seq<Action>, p: Pid)
    requires var s := Run(INITIAL, before); p in s.procs && s.procs[p].server == ShmCreate(1)
    ensures var s := Run(INITIAL, before);
      && Run(s, Times(Go(p), UpSteps(s))) == At(Up(s, p), p, Serving(|s.segments|, |s.queues|))
      && UpSteps(s) == (if s.shm.None? then 8 else if MasterOf(s, s.shm.value) == Unset then 21 else 16)
  {
    ReachableInv(before);
    var s := Run(INITIAL, before);
    HolderAlone(s, p);
    hide Inv, Run, At, Fresh, Cleared, Times;
    if s.shm.None? { Creates(s, p, 1); } else { UpAfterClearing(s, p, s.shm.value); }
  }

  // -------------------------------------------------------- going down again

  /** The thread is off and the lock free. */
  function Gone(s: State, p: Pid): State
    requires p in s.procs
  {
    At(s.(lock := None), p, Off)
  }

  lemma UnlockGoes(s: State, p: Pid)
    requires p in s.procs
    ensures Step(At(s, p, Unlock), Go(p)) == Gone(s, p)
  {
    MoveAgain(s.(lock := None), p, Unlock, Off);
  }

  /** A stop of the idle loop, or a rumble thread that could not be started, from there on. */
  lemma Stops(s: State, p: Pid, g: SegmentId)
    requires p in s.procs
    ensures Run(At(s, p, StopQueueUnlink(g)), Times(Go(p), 4)) == Gone(Cleared(s, g), p)
  {
    var from := At(s, p, StopQueueUnlink(g));
    StopsFirst(s, p, g);
    StopsThen(Mark(s.(mq := None), g, Broken), p, g);
    UnlockGoes(Cleared(s, g), p);
    hide Step, Run;
    OneGo(from, p);
    RunTimes(from, Go(p), 2);
    RunTimes(from, Go(p), 3);
    RunTimes(from, Go(p), 4);
    hide At, Gone;
  }

  lemma StopsFirst(s: State, p: Pid, g: SegmentId)
    requires p in s.procs
    ensures Step(At(s, p, StopQueueUnlink(g)), Go(p)) == At(s.(mq := None), p, StopMark(g))
    ensures Step(At(s.(mq := None), p, StopMark(g)), Go(p)) == At(Mark(s.(mq := None), g, Broken), p, StopUnlink(g))
  {
    MoveAgain(s.(mq := None), p, StopQueueUnlink(g), StopMark(g));
    MoveAgain(Mark(s.(mq := None), g, Broken), p, StopMark(g), StopUnlink(g));
  }

  lemma StopsThen(s: State, p: Pid, g: SegmentId)
    requires p in s.procs
    ensures Step(At(s, p, StopUnlink(g)), Go(p)) == At(s.(shm := None), p, Unlock)
  {
    MoveAgain(s.(shm := None), p, StopUnlink(g), Unlock);
  }

  /** The names and segments that a failing call of a server thread leaves in the end: a segment
      that cannot be sized or mapped is unbound again; a queue that cannot be made leaves its
      segment bound and unset; without its rumble thread a server stops properly; the other
      calls leave everything as it is. */
  ghost function Leftover(s: State, v: Server): State
  {
    if v.Truncate? || v.Map? then s.(shm := None)
    else if v.SpawnRumble? then Cleared(s, v.seg)
    else s
  }

  /** Steps from the failing call to the end. */
  function EndSteps(v: Server): nat
  {
    if v.Truncate? || v.Map? then 2 else if v.SpawnRumble? then 4 else 1
  }

  predicate MayFail(v: Server)
  {
    v.ShmCreate? || v.Truncate? || v.Map? || v.QueueCreate? || v.SpawnRumble? || v.PokeOpen? || v.PokeMap?
  }

  lemma FailsAt(s: State, p: Pid)
    requires p in s.procs && MayFail(s.procs[p].server)
    ensures var v := s.procs[p].server;
      Step(s, ServerStep(p, false)) ==
        At(s, p, if v.Truncate? || v.Map? then CreateUnlink(v.seg)
                 else if v.SpawnRumble? then StopQueueUnlink(v.seg) else Unlock)
  {}

  lemma Unlinks(s: State, p: Pid, g: SegmentId)
    requires p in s.procs
    ensures Run(At(s, p, CreateUnlink(g)), Times(Go(p), 2)) == Gone(s.(shm := None), p)
  {
    var from := At(s, p, CreateUnlink(g));
    MoveAgain(s.(shm := None), p, CreateUnlink(g), Unlock);
    assert Step(from, Go(p)) == At(s.(shm := None), p, Unlock);
    UnlockGoes(s.(shm := None), p);
    hide Step, Run;
    OneGo(from, p);
    RunTimes(from, Go(p), 2);
  }

  /** A server thread one of whose calls fails lets go of the lock after exactly so many more
      steps, and this is what it leaves behind. */
  lemma FailedCall(s: State, p: Pid)
    requires p in s.procs && MayFail(s.procs[p].server)
    ensures var v := s.procs[p].server;
      Run(Step(s, ServerStep(p, false)), Times(Go(p), EndSteps(v))) == Gone(Leftover(s, v), p)
  {
    var v := s.procs[p].server;
    FailsAt(s, p);
    hide Step, Run, At, Gone;
    if v.Truncate? || v.Map? {
      Unlinks(s, p, v.seg);
    } else if v.SpawnRumble? {
      Stops(s, p, v.seg);
    } else {
      OneGo(At(s, p, Unlock), p);
      UnlockGoes(s, p);
    }
  }

  /** Every other step of a server thread does the same whatever it is told about success: it
      cannot fail. */
  lemma CannotFail(s: State, p: Pid)
    requires p in s.procs && !MayFail(s.procs[p].server)
    requires !s.procs[p].server.Lock? && !s.procs[p].server.QueueRecreate?
    ensures Step(s, ServerStep(p, false)) == Step(s, ServerStep(p, true))
  {}

  /** A serving thread that leaves its idle loop is gone after exactly five steps, with its
      segment marked and both names unbound. */
  lemma DownExactly(s: State, p: Pid)
    requires p in s.procs && s.procs[p].server.Serving?
    ensures Run(s, Times(Go(p), 5)) == Gone(Cleared(s, s.procs[p].server.seg), p)
  {
    var g := s.procs[p].server.seg;
    assert Step(s, Go(p)) == At(s, p, StopQueueUnlink(g));
    hide Step, Run, At, Gone;
    OneGo(s, p);
    TimesMore(s, Go(p), 1, 4);
    Stops(s, p, g);
  }

  /** The lock is taken exactly when it is free and the call succeeds; otherwise the thread is
      off again. */
  lemma LockTakenIff(s: State, p: Pid, ok: bool)
    requires p in s.procs && s.procs[p].server == Off
    ensures Step(Step(s, Go(p)), ServerStep(p, ok)) ==
      if ok && s.lock.None? then At(s.(lock := Some(p)), p, ShmCreate(1)) else s
  {
    MoveAgain(s, p, Lock, Off);
    MoveAgain(s.(lock := Some(p)), p, Lock, ShmCreate(1));
    Stays(s, p);
  }
}
