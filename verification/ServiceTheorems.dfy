/** What the ownership protocol guarantees in every reachable state. */
module ServiceTheorems {
  import opened ServiceProtocol
  import opened Wrappers
  import opened ServiceInvariant

  /** No split brain: a segment that names a live owner is the one bound to the shared
      name, was made by that owner, and its owner holds the lock. */
  lemma NoSplitBrain(actions: seq<Action>, g: SegmentId)
    requires var s := Run(INITIAL, actions); g < |s.segments| && Live(s, s.segments[g].master)
    ensures var s := Run(INITIAL, actions);
      var owner := s.segments[g].master.pid;
      s.shm == Some(g) && s.lock == Some(owner) && s.segments[g].creator == owner
  {
    ReachableInv(actions);
    OwnerCurrent(Run(INITIAL, actions), g);
  }

  /** At most one segment ever names a live owner. */
  lemma OneLiveSegment(actions: seq<Action>, g: SegmentId, h: SegmentId)
    requires var s := Run(INITIAL, actions);
      && g < |s.segments| && Live(s, s.segments[g].master)
      && h < |s.segments| && Live(s, s.segments[h].master)
    ensures g == h
  {
    NoSplitBrain(actions, g);
    NoSplitBrain(actions, h);
  }

  /** The queue name is bound only while the shared-memory name is bound to the very
      segment the queue was made for, and no two queues are made for one segment. */
  lemma QueuePairing(actions: seq<Action>)
    ensures var s := Run(INITIAL, actions);
      && (s.mq.Some? ==> s.mq.value < |s.queues| && s.shm == Some(s.queues[s.mq.value]))
      && (forall q, r :: 0 <= q < r < |s.queues| ==> s.queues[q] != s.queues[r])
  {
    ReachableInv(actions);
  }

  /** A client that was judged connected to a live server by the kill path maps that
      server's segment and holds the one queue made for it. */
  lemma VerdictPairsQueue(actions: seq<Action>, p: Pid)
    requires var s := Run(INITIAL, actions); p in s.procs && s.procs[p].client.Alive?
    ensures var s := Run(INITIAL, actions);
      var c := s.procs[p].client;
      && c.seg < |s.segments| && s.segments[c.seg].creator == c.pid
      && c.queue < |s.queues| && s.queues[c.queue] == c.seg
      && (forall q :: 0 <= q < |s.queues| && s.queues[q] == c.seg ==> q == c.queue)
  {
    ReachableInv(actions);
    var s := Run(INITIAL, actions);
    assert ClientOk(s, s.procs[p].client);
  }

  lemma RunSnoc(s: State, actions: seq<Action>, a: Action)
    ensures Run(s, actions + [a]) == Step(Run(s, actions), a)
    decreases |actions|
  {
    hide Step;
    if actions == [] {
      assert Run(Step(s, a), []) == Step(s, a);
      assert ([] + [a])[1..] == [];
    } else {
      RunSnoc(Step(s, actions[0]), actions[1..], a);
      assert (actions + [a])[1..] == actions[1..] + [a];
    }
  }

  ghost predicate Judging(c: Client, g: SegmentId, owner: Pid)
  {
    (c.Kill? && c.seg == g && c.seen == Owned(owner) && c.current) ||
    (c.Alive? && c.seg == g && c.pid == owner)
  }

  lemma ClientKeepsOthers(s: State, q: Pid, ok: bool, p: Pid)
    requires q in s.procs && p != q
    ensures ClientNext(s, q, ok).procs.Keys == s.procs.Keys
    ensures p in s.procs ==> ClientNext(s, q, ok).procs[p] == s.procs[p]
  {}

  lemma ClientJudging(s: State, p: Pid, ok: bool, g: SegmentId, owner: Pid)
    requires Inv(s) && p in s.procs && Judging(ClientNext(s, p, ok).procs[p].client, g, owner)
    ensures IsCurrent(s, g, Owned(owner)) || Judging(s.procs[p].client, g, owner)
  {
    assert ClientOk(s, s.procs[p].client);
    hide Inv;
  }

  /** The verdict was true when it was formed: at some earlier point of the run the
      client's segment was the bound one and its owner held the lock. */
  lemma {:induction false} VerdictWasCurrent(actions: seq<Action>, p: Pid, g: SegmentId, owner: Pid)
    returns (k: nat)
    requires var s := Run(INITIAL, actions); p in s.procs && Judging(s.procs[p].client, g, owner)
    ensures k < |actions|
    ensures var s := Run(INITIAL, actions[..k]); s.shm == Some(g) && s.lock == Some(owner)
    decreases |actions|
  {
    if actions == [] {
      assert false;
    }
    var last := |actions| - 1;
    var before := Run(INITIAL, actions[..last]);
    assert actions == actions[..last] + [actions[last]];
    RunSnoc(INITIAL, actions[..last], actions[last]);
    ReachableInv(actions[..last]);
    JudgingBefore(before, actions[last], p, g, owner);
    if IsCurrent(before, g, Owned(owner)) {
      k := last;
    } else {
      k := VerdictWasCurrent(actions[..last], p, g, owner);
      assert actions[..last][..k] == actions[..k];
    }
  }

  lemma JudgingBefore(s: State, a: Action, p: Pid, g: SegmentId, owner: Pid)
    requires Inv(s) && p in Step(s, a).procs && Judging(Step(s, a).procs[p].client, g, owner)
    ensures IsCurrent(s, g, Owned(owner)) || (p in s.procs && Judging(s.procs[p].client, g, owner))
  {
    match a
    case ServerStep(q, ok) => if q in s.procs { ServerKeepsOthers(s, q, ok); }
    case ClientStep(q, ok) =>
      if q in s.procs {
        if p == q { ClientJudging(s, p, ok, g, owner); } else { ClientKeepsOthers(s, q, ok, p); }
      }
    case _ =>
  }

  ghost predicate KeepsOthers(s: State, s': State, p: Pid)
  {
    && s'.procs.Keys == s.procs.Keys && s'.dead == s.dead
    && (forall q :: q in s.procs ==> s'.procs[q].client == s.procs[q].client)
    && (forall q :: q in s.procs && q != p ==> s'.procs[q].server == s.procs[q].server)
  }

  lemma ServerKeepsOthers(s: State, p: Pid, ok: bool)
    requires p in s.procs
    ensures KeepsOthers(s, Advance(s, p, ok), p)
  {
    hide KeepsOthers;
    CreateKeepsOthers(s, p, ok);
    RunKeepsOthers(s, p, ok);
    PokeKeepsOthers(s, p, ok);
  }

  /** A step may change anything but the process table, and there one position. */
  lemma AtKeepsOthers(s: State, t: State, p: Pid, v: Server)
    requires p in s.procs && t.procs == s.procs && t.dead == s.dead
    ensures KeepsOthers(s, At(t, p, v), p)
  {}

  lemma StayKeepsOthers(s: State, p: Pid)
    ensures KeepsOthers(s, s, p)
  {}

  lemma CreateKeepsOthers(s: State, p: Pid, ok: bool)
    requires p in s.procs
    ensures KeepsOthers(s, CreateStep(s, p, ok), p)
  {
    hide KeepsOthers;
    StayKeepsOthers(s, p);
    forall t: State, v | t.procs == s.procs && t.dead == s.dead ensures KeepsOthers(s, At(t, p, v), p) {
      AtKeepsOthers(s, t, p, v);
    }
    hide At;
  }

  lemma RunKeepsOthers(s: State, p: Pid, ok: bool)
    requires p in s.procs
    ensures KeepsOthers(s, RunStep(s, p, ok), p)
  {
    hide KeepsOthers;
    StayKeepsOthers(s, p);
    forall t: State, v | t.procs == s.procs && t.dead == s.dead ensures KeepsOthers(s, At(t, p, v), p) {
      AtKeepsOthers(s, t, p, v);
    }
    hide At;
  }

  lemma PokeKeepsOthers(s: State, p: Pid, ok: bool)
    requires p in s.procs
    ensures KeepsOthers(s, PokeStep(s, p, ok), p)
  {
    hide KeepsOthers;
    StayKeepsOthers(s, p);
    forall t: State, v | t.procs == s.procs && t.dead == s.dead ensures KeepsOthers(s, At(t, p, v), p) {
      AtKeepsOthers(s, t, p, v);
    }
    hide At;
  }

  /** Between reading the owner and probing it, the owner may stop serving without
      ending: the verdict is then stale.  It is about a serving owner exactly when the
      owner field has not changed since it was read. */
  lemma VerdictFreshIff(actions: seq<Action>, p: Pid)
    requires var s := Run(INITIAL, actions);
      p in s.procs && s.procs[p].client.Kill? && Live(s, s.procs[p].client.seen)
    ensures var s := Run(INITIAL, actions);
      var c := s.procs[p].client;
      InService(s.procs[c.seen.pid].server, c.seg) <==> MasterOf(s, c.seg) == c.seen
  {
    var s := Run(INITIAL, actions);
    ReachableInv(actions);
    var c := s.procs[p].client;
    assert ClientOk(s, c);
    assert OwnerOk(s, c.seg, s.segments[c.seg].master);
    assert ServerOk(s, c.seen.pid, s.procs[c.seen.pid].server);
  }

  // --------------------------------------------------------------- recovery

  /** Two branches of the source are never taken: finding a live owner while poking,
      and finding the queue name taken while creating.  The create call is made at most
      twice. */
  lemma UnreachableBranches(actions: seq<Action>, p: Pid)
    requires p in Run(INITIAL, actions).procs
    ensures var v := Run(INITIAL, actions).procs[p].server;
      && !v.PokeTouch? && !v.QueueUnlink? && !v.QueueRecreate?
      && (v.ShmCreate? ==> v.attempt <= 2)
  {
    ReachableInv(actions);
    var s := Run(INITIAL, actions);
    assert ServerOk(s, p, s.procs[p].server);
  }

  lemma NotHolder(s: State, p: Pid)
    requires Inv(s) && p in s.procs && s.lock.Some? && s.lock != Some(p)
    ensures s.procs[p].server.Off? || s.procs[p].server.Lock?
  {}

  /** Another action leaves a live server's segment, owner field, names and lock alone. */
  lemma UndisturbedStep(s: State, a: Action, g: SegmentId)
    requires Inv(s) && g < |s.segments| && Live(s, s.segments[g].master)
    requires a != Crash(s.segments[g].master.pid) && !(a.ServerStep? && a.pid == s.segments[g].master.pid)
    ensures var s' := Step(s, a);
      && s'.segments == s.segments && s'.queues == s.queues && Live(s', s.segments[g].master)
      && s'.shm == s.shm && s'.mq == s.mq && s'.lock == s.lock
  {
    OwnerCurrent(s, g);
    hide Inv;
    match a
    case ServerStep(q, ok) => if q in s.procs { NotHolder(s, q); }
    case ClientStep(q, ok) => if q in s.procs { ClientKeepsServers(s, q, ok); }
    case _ =>
  }

  /** Nobody takes a live server's segment, owner field, queue or lock away: only the
      owner's own server thread, or its crash. */
  lemma LiveServerUndisturbed(actions: seq<Action>, a: Action, g: SegmentId)
    requires var s := Run(INITIAL, actions);
      && g < |s.segments| && Live(s, s.segments[g].master)
      && a != Crash(s.segments[g].master.pid)
      && !(a.ServerStep? && a.pid == s.segments[g].master.pid)
    ensures var s := Run(INITIAL, actions);
      var s' := Step(s, a);
      && g < |s'.segments| && s'.segments[g] == s.segments[g] && Live(s', s'.segments[g].master)
      && s'.shm == s.shm && s'.mq == s.mq && s'.lock == s.lock
  {
    ReachableInv(actions);
    UndisturbedStep(Run(INITIAL, actions), a, g);
  }

  /** Positions on the way from the lock to serving. */
  predicate OnCourse(v: Server)
  {
    match v
    case ShmCreate(_) => true
    case Truncate(_, _) => true
    case Map(_, _) => true
    case Zero(_) => true
    case QueueCreate(_) => true
    case Publish(_, _) => true
    case StorePid(_, _) => true
    case SpawnRumble(_, _) => true
    case Serving(_, _) => true
    case _ => Phase(v).Poking?
  }

  /** How many steps of its own a process is from serving, at most. */
  function Rank(v: Server): nat
  {
    match v
    case ShmCreate(n) => if n == 1 then 21 else 8
    case Truncate(_, _) => 7
    case Map(_, _) => 6
    case Zero(_) => 5
    case QueueCreate(_) => 4
    case Publish(_, _) => 3
    case StorePid(_, _) => 2
    case SpawnRumble(_, _) => 1
    case PokeOpen(_) => 20
    case PokeMap(_, _) => 19
    case PokeRead(_, _, tries) => 13 + tries
    case PokeKill(_, _, _) => 12
    case PokeMark(_, _) => 11
    case PokeQueueUnlink(_, _) => 10
    case PokeUnlink(_, _) => 9
    case _ => 0
  }

  lemma StepProgresses(s: State, p: Pid)
    requires Inv(s) && p in s.procs && OnCourse(s.procs[p].server) && !s.procs[p].server.Serving?
    ensures var v' := Advance(s, p, true).procs[p].server;
      OnCourse(v') && Rank(v') < Rank(s.procs[p].server)
  {
    assert ServerOk(s, p, s.procs[p].server);
    assert LockOk(s) && NamesOk(s);
  }

  function OwnSteps(actions: seq<Action>, p: Pid): nat
  {
    if actions == [] then 0
    else (if actions[0].ServerStep? && actions[0].pid == p then 1 else 0) + OwnSteps(actions[1..], p)
  }

  /** No crash of `p` and no failing system call of its server thread. */
  ghost predicate Undisturbed(actions: seq<Action>, p: Pid)
  {
    forall i :: 0 <= i < |actions| ==>
      actions[i] != Crash(p) && actions[i] != ServerStep(p, false)
  }

  /** Recovery: from any reachable state, whatever names crashed or failed servers left
      behind and whatever the other processes do meanwhile, a process that holds the
      lock and is on its way serves after at most Rank steps of its own (21 from the
      first call of create), unless one of its system calls fails. */
  lemma {:induction false} ReachesServing(s: State, p: Pid, actions: seq<Action>) returns (k: nat)
    requires Inv(s) && p in s.procs && OnCourse(s.procs[p].server)
    requires Undisturbed(actions, p) && OwnSteps(actions, p) >= Rank(s.procs[p].server)
    ensures k <= |actions|
    ensures var r := Run(s, actions[..k]); p in r.procs && r.procs[p].server.Serving?
    decreases |actions|
  {
    if s.procs[p].server.Serving? {
      assert Run(s, actions[..0]) == s;
      return 0;
    }
    RankPositive(s.procs[p].server);
    if actions == [] {
      assert false;
    } else {
      var a, rest := actions[0], actions[1..];
      var s' := Step(s, a);
      StepKeeps(s, a);
      CourseKept(s, a, p);
      assert forall i :: 0 <= i < |rest| ==> rest[i] == actions[i + 1];
      k := ReachesServing(s', p, rest);
      assert actions[..k + 1][1..] == rest[..k];
      assert Run(s, actions[..k + 1]) == Run(s', rest[..k]);
      k := k + 1;
    }
  }

  lemma RankPositive(v: Server)
    requires OnCourse(v) && !v.Serving? && !v.PokeTouch?
    ensures Rank(v) > 0
  {}

  lemma CourseKept(s: State, a: Action, p: Pid)
    requires Inv(s) && p in s.procs && OnCourse(s.procs[p].server) && !s.procs[p].server.Serving?
    requires a != Crash(p) && a != ServerStep(p, false)
    ensures var s' := Step(s, a);
      && p in s'.procs && OnCourse(s'.procs[p].server)
      && (if a == ServerStep(p, true) then Rank(s'.procs[p].server) < Rank(s.procs[p].server)
          else s'.procs[p].server == s.procs[p].server)
  {
    hide Inv, OnCourse, Rank, Advance;
    match a
    case ServerStep(q, ok) =>
      if q in s.procs { ServerKeepsOthers(s, q, ok); }
      if q == p { StepProgresses(s, p); }
    case ClientStep(q, ok) => if q in s.procs { ClientKeepsServers(s, q, ok); }
    case _ =>
  }

  lemma ClientKeepsServers(s: State, p: Pid, ok: bool)
    requires p in s.procs
    ensures ClientNext(s, p, ok).procs.Keys == s.procs.Keys && ClientNext(s, p, ok).dead == s.dead
    ensures forall q :: q in s.procs ==> ClientNext(s, p, ok).procs[q].server == s.procs[q].server
  {}

  /** Recovery from the moment the lock is taken, in any reachable state. */
  lemma Recovery(before: seq<Action>, p: Pid, actions: seq<Action>) returns (k: nat)
    requires var s := Run(INITIAL, before); p in s.procs && s.procs[p].server == ShmCreate(1)
    requires Undisturbed(actions, p) && OwnSteps(actions, p) >= 21
    ensures k <= |actions|
    ensures var r := Run(Run(INITIAL, before), actions[..k]);
      p in r.procs && r.procs[p].server.Serving? && r.lock == Some(p)
  {
    ReachableInv(before);
    k := ReachesServing(Run(INITIAL, before), p, actions);
    RunKeepsInvariant(Run(INITIAL, before), actions[..k]);
    HolderHolds(Run(Run(INITIAL, before), actions[..k]), p);
  }

  // -------------------------------------------------------- a stale verdict

  /** The four steps from leaving the idle loop to unbinding the segment. */
  function StopSteps(owner: Pid): seq<Action>
  {
    [ServerStep(owner, true), ServerStep(owner, true), ServerStep(owner, true), ServerStep(owner, true)]
  }

  lemma RunFour(s: State, a: Action)
    ensures Run(s, [a, a, a, a]) == Step(Step(Step(Step(s, a), a), a), a)
  {
    hide Step;
    RunSnoc(s, [], a);
    RunSnoc(s, [a], a);
    RunSnoc(s, [a, a], a);
    RunSnoc(s, [a, a, a], a);
    assert [] + [a] == [a] && [a] + [a] == [a, a] && [a, a] + [a] == [a, a, a] && [a, a, a] + [a] == [a, a, a, a];
  }

  lemma KeepsOthersTwice(s: State, t: State, r: State, p: Pid)
    requires KeepsOthers(s, t, p) && KeepsOthers(t, r, p)
    ensures KeepsOthers(s, r, p)
  {}

  lemma StopRun(s: State, owner: Pid, g: SegmentId, q: QueueId)
    requires owner in s.procs && s.procs[owner].server == Serving(g, q) && g < |s.segments|
    ensures var r := Run(s, StopSteps(owner));
      && r.shm == None && r.mq == None && MasterOf(r, g) == Broken
      && KeepsOthers(s, r, owner)
  {
    var go := ServerStep(owner, true);
    RunFour(s, go);
    var s1 := At(s, owner, StopQueueUnlink(g));
    var s2 := At(s1.(mq := None), owner, StopMark(g));
    assert Step(s, go) == s1;
    assert Step(s1, go) == s2;
    ServerKeepsOthers(s, owner, true);
    ServerKeepsOthers(s1, owner, true);
    hide Run, KeepsOthers;
    StopTail(s2, owner, g);
    hide Step;
    KeepsOthersTwice(s, s1, s2, owner);
    KeepsOthersTwice(s, s2, Step(Step(s2, go), go), owner);
  }

  lemma StopTail(s: State, owner: Pid, g: SegmentId)
    requires owner in s.procs && s.procs[owner].server == StopMark(g) && g < |s.segments|
    ensures var go := ServerStep(owner, true); var r := Step(Step(s, go), go);
      && r.shm == None && r.mq == s.mq && MasterOf(r, g) == Broken
      && KeepsOthers(s, r, owner)
  {
    var go := ServerStep(owner, true);
    var s1 := At(Mark(s, g, Broken), owner, StopUnlink(g));
    assert Step(s, go) == s1;
    assert Step(s1, go) == At(s1.(shm := None), owner, Unlock);
    ServerKeepsOthers(s, owner, true);
    ServerKeepsOthers(s1, owner, true);
    hide KeepsOthers;
    KeepsOthersTwice(s, s1, Step(s1, go), owner);
  }

  /** A verdict in flight about any serving owner can go stale: the owner stops serving
      and unbinds everything, and the probe of the still living process succeeds. */
  lemma StaleVerdict(actions: seq<Action>, p: Pid)
    requires var s := Run(INITIAL, actions);
      p in s.procs && s.procs[p].client.Kill? && Live(s, s.procs[p].client.seen) &&
      s.procs[s.procs[p].client.seen.pid].server.Serving? &&
      s.procs[s.procs[p].client.seen.pid].server.seg == s.procs[p].client.seg
    ensures var c := Run(INITIAL, actions).procs[p].client;
      var r := Run(Run(INITIAL, actions), StopSteps(c.seen.pid));
      var late := Step(r, ClientStep(p, true));
      && p in late.procs && late.procs[p].client == Alive(c.seg, c.queue, c.seen.pid, c.current)
      && late.shm == None && late.mq == None && MasterOf(late, c.seg) == Broken
  {
    var s := Run(INITIAL, actions);
    ReachableInv(actions);
    var c := s.procs[p].client;
    var v := s.procs[c.seen.pid].server;
    assert ServerOk(s, c.seen.pid, v);
    hide Inv, Run;
    StopRun(s, c.seen.pid, v.seg, v.queue);
  }

  // ------------------------------------------------- a run that gets there

  function Times(a: Action, n: nat): seq<Action>
  {
    if n == 0 then [] else Times(a, n - 1) + [a]
  }

  /** A server comes up in ten steps, and a client gets to the probe in four. */
  const UP_TO_PROBE: seq<Action> :=
    [Start(1)] + [Start(2)] + Times(ServerStep(1, true), 10) + Times(ClientStep(2, true), 4)

  lemma RunConcat(s: State, a: seq<Action>, b: seq<Action>)
    ensures Run(s, a + b) == Run(Run(s, a), b)
    decreases |b|
  {
    hide Step;
    if b == [] {
      assert a + b == a;
    } else {
      var last := |b| - 1;
      assert a + b == (a + b[..last]) + [b[last]] && b == b[..last] + [b[last]];
      RunConcat(s, a, b[..last]);
      RunSnoc(s, a + b[..last], b[last]);
      RunSnoc(Run(s, a), b[..last], b[last]);
    }
  }

  lemma RunTimes(s: State, a: Action, n: nat)
    requires n > 0
    ensures Run(s, Times(a, n)) == Step(Run(s, Times(a, n - 1)), a)
  {
    hide Step, Run;
    RunSnoc(s, Times(a, n - 1), a);
  }

  /** Two processes: 1 runs the server code, 2 the client code. */
  function World(server: Server, client: Client, lock: Option<Pid>, shm: Option<SegmentId>, mq: Option<QueueId>,
                 segments: seq<Segment>, queues: seq<SegmentId>): State
  {
    State(map[1 := Process(server, Idle), 2 := Process(Off, client)], {}, lock, shm, mq, segments, queues)
  }

  /** The world after the first steps of the server. */
  function Coming(n: nat): State
    requires n <= 10
  {
    var mine, owned := [Segment(1, Unset)], [Segment(1, Owned(1))];
    if n == 0 then World(Off, Idle, None, None, None, [], [])
    else if n == 1 then World(Lock, Idle, None, None, None, [], [])
    else if n == 2 then World(ShmCreate(1), Idle, Some(1), None, None, [], [])
    else if n == 3 then World(Truncate(1, 0), Idle, Some(1), Some(0), None, mine, [])
    else if n == 4 then World(Map(1, 0), Idle, Some(1), Some(0), None, mine, [])
    else if n == 5 then World(Zero(0), Idle, Some(1), Some(0), None, mine, [])
    else if n == 6 then World(QueueCreate(0), Idle, Some(1), Some(0), None, mine, [])
    else if n == 7 then World(Publish(0, 0), Idle, Some(1), Some(0), Some(0), mine, [0])
    else if n == 8 then World(StorePid(0, 0), Idle, Some(1), Some(0), Some(0), mine, [0])
    else if n == 9 then World(SpawnRumble(0, 0), Idle, Some(1), Some(0), Some(0), owned, [0])
    else World(Serving(0, 0), Idle, Some(1), Some(0), Some(0), owned, [0])
  }

  lemma ComingFirst(n: nat)
    requires n < 4
    ensures Step(Coming(n), ServerStep(1, true)) == Coming(n + 1)
  {
    assert Coming(n).procs[1 := Coming(n + 1).procs[1]] == Coming(n + 1).procs;
  }

  lemma ComingThen(n: nat)
    requires 4 <= n < 7
    ensures Step(Coming(n), ServerStep(1, true)) == Coming(n + 1)
  {
    assert Coming(n).procs[1 := Coming(n + 1).procs[1]] == Coming(n + 1).procs;
  }

  lemma ComingLast(n: nat)
    requires 7 <= n < 10
    ensures Step(Coming(n), ServerStep(1, true)) == Coming(n + 1)
  {
    assert Coming(n).procs[1 := Coming(n + 1).procs[1]] == Coming(n + 1).procs;
  }

  lemma ComingNext(n: nat)
    requires n < 10
    ensures Step(Coming(n), ServerStep(1, true)) == Coming(n + 1)
  {
    hide Step;
    if n < 4 { ComingFirst(n); } else if n < 7 { ComingThen(n); } else { ComingLast(n); }
  }

  lemma {:induction false} ComesUp(n: nat)
    requires n <= 10
    ensures Run(Coming(0), Times(ServerStep(1, true), n)) == Coming(n)
  {
    hide Step, Coming;
    if n > 0 {
      ComesUp(n - 1);
      ComingNext(n - 1);
      RunTimes(Coming(0), ServerStep(1, true), n);
    }
  }

  /** The world after the first steps of the client. */
  function Asking(n: nat): State
    requires n <= 4
  {
    var client :=
      if n == 0 then Idle else if n == 1 then Mapped(0) else if n == 2 then Connected(0, 0)
      else if n == 3 then Reading(0, 0, OWNER_TRIES) else Kill(0, 0, Owned(1), true);
    World(Serving(0, 0), client, Some(1), Some(0), Some(0), [Segment(1, Owned(1))], [0])
  }

  lemma AskingNext(n: nat)
    requires n < 4
    ensures Step(Asking(n), ClientStep(2, true)) == Asking(n + 1)
  {
    assert Asking(n).procs[2 := Asking(n + 1).procs[2]] == Asking(n + 1).procs;
  }

  lemma {:induction false} Asks(n: nat)
    requires n <= 4
    ensures Run(Asking(0), Times(ClientStep(2, true), n)) == Asking(n)
  {
    hide Step, Asking;
    if n > 0 {
      Asks(n - 1);
      AskingNext(n - 1);
      RunTimes(Asking(0), ClientStep(2, true), n);
    }
  }

  lemma BothStart()
    ensures Run(INITIAL, [Start(1)] + [Start(2)]) == Coming(0)
  {
    RunSnoc(INITIAL, [Start(1)], Start(2));
    RunSnoc(INITIAL, [], Start(1));
    assert [] + [Start(1)] == [Start(1)];
    assert map[][1 := Process(Off, Idle)][2 := Process(Off, Idle)] == Coming(0).procs;
  }

  /** The property that fails: a probe that succeeds is not yet about the bound segment.  In
      this run a client is about to probe a serving owner; the owner stops; the probe still
      succeeds, and the client is judged connected to a segment that is marked broken and
      no longer bound. */
  lemma StaleRun()
    ensures var s := Run(INITIAL, UP_TO_PROBE);
      var late := Step(Run(s, StopSteps(1)), ClientStep(2, true));
      && s == Asking(4) && s.procs[1].server == Serving(0, 0)
      && 2 in late.procs && late.procs[2].client == Alive(0, 0, 1, true)
      && late.shm == None && late.mq == None && MasterOf(late, 0) == Broken
  {
    hide Run, Step;
    BothStart();
    ComesUp(10);
    Asks(4);
    RunConcat(INITIAL, [Start(1)] + [Start(2)], Times(ServerStep(1, true), 10));
    RunConcat(INITIAL, [Start(1)] + [Start(2)] + Times(ServerStep(1, true), 10), Times(ClientStep(2, true), 4));
    hide Times;
    StaleVerdict(UP_TO_PROBE, 2);
  }
}
