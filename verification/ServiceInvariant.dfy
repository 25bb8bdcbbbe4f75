/** The invariant of the ownership protocol and its preservation by every step. */
module ServiceInvariant {
  import opened ServiceProtocol
  import opened Wrappers

  predicate Holds(v: Server)
  {
    !v.Off? && !v.Lock?
  }

  /** From storing its pid until marking the segment broken. */
  predicate InService(v: Server, g: SegmentId)
  {
    match v
    case SpawnRumble(seg, _) => seg == g
    case Serving(seg, _) => seg == g
    case StopQueueUnlink(seg) => seg == g
    case StopMark(seg) => seg == g
    case _ => false
  }

  ghost predicate LockOk(s: State)
  {
    && (forall p :: p in s.procs ==> (Holds(s.procs[p].server) <==> s.lock == Some(p)))
    && (s.lock.Some? ==> s.lock.value in s.procs)
    && s.procs.Keys !! s.dead
  }

  ghost predicate NamesOk(s: State)
  {
    && (s.shm.Some? ==> s.shm.value < |s.segments|)
    && (s.mq.Some? ==> s.mq.value < |s.queues| && s.shm == Some(s.queues[s.mq.value]))
    && (forall q :: 0 <= q < |s.queues| ==> s.queues[q] < |s.segments|)
    && (forall q, r :: 0 <= q < r < |s.queues| ==> s.queues[q] != s.queues[r])
  }

  ghost predicate OwnerOk(s: State, g: SegmentId, owner: Owner)
  {
    owner.Owned? ==>
      if owner.pid in s.procs then InService(s.procs[owner.pid].server, g) else owner.pid in s.dead
  }

  ghost predicate OwnersOk(s: State)
  {
    forall g :: 0 <= g < |s.segments| ==> OwnerOk(s, g, s.segments[g].master)
  }

  /** The name is bound to a segment of this process. */
  ghost predicate Own(s: State, p: Pid, g: SegmentId, master: Owner)
  {
    s.shm == Some(g) && g < |s.segments| && s.segments[g] == Segment(p, master)
  }

  ghost predicate NoQueueYet(s: State, g: SegmentId)
  {
    s.mq == None && g !in s.queues
  }

  ghost predicate Paired(s: State, g: SegmentId, q: QueueId)
  {
    s.mq == Some(q) && q < |s.queues| && s.queues[q] == g
  }

  ghost predicate ServerOk(s: State, p: Pid, v: Server)
  {
    match v
    case Off => true
    case Lock => true
    case ShmCreate(n) => n == 1 || (n == 2 && s.shm == None)
    case Truncate(n, g) => Own(s, p, g, Unset) && NoQueueYet(s, g)
    case Map(n, g) => Own(s, p, g, Unset) && NoQueueYet(s, g)
    case CreateUnlink(g) => s.mq == None
    case Zero(g) => Own(s, p, g, Unset) && NoQueueYet(s, g)
    case QueueCreate(g) => Own(s, p, g, Unset) && NoQueueYet(s, g)
    case QueueUnlink(g) => false
    case QueueRecreate(g) => false
    case Publish(g, q) => Own(s, p, g, Unset) && Paired(s, g, q)
    case StorePid(g, q) => Own(s, p, g, Unset) && Paired(s, g, q)
    case SpawnRumble(g, q) => Own(s, p, g, Owned(p)) && Paired(s, g, q)
    case Serving(g, q) => Own(s, p, g, Owned(p)) && Paired(s, g, q)
    case StopQueueUnlink(g) => Own(s, p, g, Owned(p))
    case StopMark(g) => Own(s, p, g, Owned(p)) && s.mq == None
    case StopUnlink(g) => Own(s, p, g, Broken) && s.mq == None
    case Unlock => true
    case PokeOpen(n) => n == 1 && s.shm.Some?
    case PokeMap(n, g) => n == 1 && s.shm == Some(g)
    case PokeRead(n, g, tries) => n == 1 && s.shm == Some(g) && tries <= OWNER_TRIES
    case PokeKill(n, g, seen) => n == 1 && s.shm == Some(g) && (seen.Owned? ==> seen.pid in s.dead)
    case PokeMark(n, g) => n == 1 && s.shm == Some(g)
    case PokeQueueUnlink(n, g) => n == 1 && s.shm == Some(g)
    case PokeUnlink(n, g) => n == 1 && s.shm == Some(g) && s.mq == None
    case PokeTouch(g) => false
  }

  ghost predicate Handles(s: State, g: SegmentId, q: QueueId)
  {
    g < |s.segments| && q < |s.queues|
  }

  ghost predicate ClientOk(s: State, c: Client)
  {
    match c
    case Idle => true
    case Mapped(g) => g < |s.segments|
    case Connected(g, q) => Handles(s, g, q) && (s.shm == Some(g) ==> s.queues[q] == g)
    case Reading(g, q, tries) =>
      Handles(s, g, q) && tries <= OWNER_TRIES && (s.shm == Some(g) ==> s.queues[q] == g)
    case Kill(g, q, seen, current) =>
      && Handles(s, g, q)
      && (seen.Owned? ==>
          if seen.pid in s.procs then current && s.queues[q] == g && s.segments[g].creator == seen.pid
          else seen.pid in s.dead)
    case Alive(g, q, pid, current) =>
      Handles(s, g, q) && current && s.queues[q] == g && s.segments[g].creator == pid
    case SelfAlive(g, q) => Handles(s, g, q) && (s.shm == Some(g) ==> s.queues[q] == g)
  }

  ghost predicate ServersOk(s: State)
  {
    forall p :: p in s.procs ==> ServerOk(s, p, s.procs[p].server)
  }

  ghost predicate ClientsOk(s: State)
  {
    forall p :: p in s.procs ==> ClientOk(s, s.procs[p].client)
  }

  ghost predicate Inv(s: State)
  {
    LockOk(s) && NamesOk(s) && OwnersOk(s) && ServersOk(s) && ClientsOk(s)
  }

  lemma StartKeeps(s: State, p: Pid)
    requires Inv(s)
    ensures Inv(Step(s, Start(p)))
  {
  }

  lemma CrashKeeps(s: State, p: Pid)
    requires Inv(s)
    ensures Inv(Step(s, Crash(p)))
  {
  }

  // ------------------------------------------------------------ frame lemmas

  /** What a step of one server thread may do to what clients rely on: segments and
      queues are only added, and a name is kept, removed, or bound to a new segment. */
  ghost predicate Evolves(s: State, s': State)
  {
    && s'.procs.Keys == s.procs.Keys && s'.dead == s.dead
    && (forall q :: q in s.procs ==> s'.procs[q].client == s.procs[q].client)
    && |s.segments| <= |s'.segments|
    && (forall g :: 0 <= g < |s.segments| ==> s'.segments[g].creator == s.segments[g].creator)
    && s.queues <= s'.queues
    && (s'.shm == s.shm || s'.shm == None || s'.shm == Some(|s.segments|))
  }

  lemma ClientFrame(s: State, s': State, c: Client)
    requires Evolves(s, s') && ClientOk(s, c)
    ensures ClientOk(s', c)
  {
    assert forall q :: 0 <= q < |s.queues| ==> s'.queues[q] == s.queues[q];
  }

  ghost predicate OthersKeep(s: State, s': State, p: Pid)
  {
    forall q :: q in s.procs && q in s'.procs && q != p ==> s'.procs[q].server == s.procs[q].server
  }

  /** A step of the lock holder keeps the invariant when it keeps the names, the owner
      fields and its own position in order: no other server thread is beyond the lock. */
  lemma HolderStep(s: State, s': State, p: Pid)
    requires Inv(s) && s.lock == Some(p) && p in s.procs
    requires Evolves(s, s') && OthersKeep(s, s', p)
    requires s'.lock == if Holds(s'.procs[p].server) then Some(p) else None
    requires NamesOk(s') && OwnersOk(s') && ServerOk(s', p, s'.procs[p].server)
    ensures Inv(s')
  {
    hide NamesOk, OwnersOk;
    forall q | q in s'.procs ensures ClientOk(s', s'.procs[q].client) {
      ClientFrame(s, s', s.procs[q].client);
    }
    forall q | q in s'.procs ensures ServerOk(s', q, s'.procs[q].server) {
      if q != p { assert !Holds(s'.procs[q].server); }
    }
  }

  /** The owner fields stay in order when none is changed and the holder neither enters
      nor leaves service. */
  lemma OwnersFrame(s: State, s': State, p: Pid)
    requires OwnersOk(s) && s'.procs.Keys == s.procs.Keys && s'.dead == s.dead && OthersKeep(s, s', p)
    requires s'.segments == s.segments && p in s.procs
    requires forall g :: InService(s.procs[p].server, g) ==> InService(s'.procs[p].server, g)
    ensures OwnersOk(s')
  {
    forall g | 0 <= g < |s'.segments| ensures OwnerOk(s', g, s'.segments[g].master) {
      assert OwnerOk(s, g, s.segments[g].master);
    }
  }

  // ---------------------------------------------------------- the client half

  /** No split brain, stated on a single state. */
  lemma OwnerCurrent(s: State, g: SegmentId)
    requires Inv(s) && g < |s.segments| && Live(s, s.segments[g].master)
    ensures var p := s.segments[g].master.pid;
      s.shm == Some(g) && s.lock == Some(p) && s.segments[g].creator == p
  {
    var p := s.segments[g].master.pid;
    assert OwnerOk(s, g, s.segments[g].master);
    assert ServerOk(s, p, s.procs[p].server);
  }

  lemma ReadKeeps(s: State, g: SegmentId, q: QueueId)
    requires Inv(s) && g < |s.segments| && q < |s.queues| && (s.shm == Some(g) ==> s.queues[q] == g)
    ensures var seen := MasterOf(s, g); ClientOk(s, Kill(g, q, seen, IsCurrent(s, g, seen)))
  {
    var seen := MasterOf(s, g);
    assert OwnerOk(s, g, s.segments[g].master);
    if Live(s, seen) { OwnerCurrent(s, g); }
  }

  lemma ClientPlaced(s: State, p: Pid, c: Client)
    requires Inv(s) && p in s.procs && ClientOk(s, c)
    ensures Inv(ClientAt(s, p, c))
  {
    var s' := ClientAt(s, p, c);
    assert forall q :: q in s'.procs ==> s'.procs[q].server == s.procs[q].server;
    OwnersFrame(s, s', p);
    forall q | q in s'.procs ensures ClientOk(s', s'.procs[q].client) {
      assert ClientOk(s, s'.procs[q].client);
    }
  }

  /** What the client half of a process is after a step. */
  lemma NextClient(s: State, p: Pid, ok: bool)
    requires Inv(s) && p in s.procs
    ensures var c := ClientNext(s, p, ok).procs[p].client;
      ClientNext(s, p, ok) == ClientAt(s, p, c) && ClientOk(s, c)
  {
    var c := s.procs[p].client;
    assert ClientOk(s, c) && NamesOk(s);
    assert s.procs[p := s.procs[p]] == s.procs;
    if c.Reading? { ReadKeeps(s, c.seg, c.queue); }
    if c.Kill? && Live(s, c.seen) { KillKeeps(s, c); }
    hide Inv;
  }

  lemma KillKeeps(s: State, c: Client)
    requires c.Kill? && ClientOk(s, c) && Live(s, c.seen)
    ensures ClientOk(s, Alive(c.seg, c.queue, c.seen.pid, c.current))
  {}

  lemma ClientKeeps(s: State, p: Pid, ok: bool)
    requires Inv(s) && p in s.procs
    ensures Inv(ClientNext(s, p, ok))
  {
    NextClient(s, p, ok);
    hide Inv, ClientOk, ClientAt;
    ClientPlaced(s, p, ClientNext(s, p, ok).procs[p].client);
  }

  // ---------------------------------------------------------- the server half

  /** A holder step that changes only the holder's position. */
  lemma Moved(s: State, p: Pid, v: Server)
    requires Inv(s) && p in s.procs && s.lock == Some(p) && Holds(v) && ServerOk(s, p, v)
    requires forall g :: InService(s.procs[p].server, g) ==> InService(v, g)
    ensures Inv(At(s, p, v))
  {
    var s' := At(s, p, v);
    OwnersFrame(s, s', p);
    assert ServerOk(s', p, v);
    HolderStep(s, s', p);
  }

  /** What is known of a server thread does not mention the lock or other threads. */
  lemma ServerFrame(s: State, s': State, q: Pid, v: Server)
    requires ServerOk(s, q, v)
    requires s'.shm == s.shm && s'.mq == s.mq && s'.segments == s.segments && s'.queues == s.queues && s'.dead == s.dead
    ensures ServerOk(s', q, v)
  {}

  /** A thread at the lock: it takes it, or leaves. */
  lemma TakeLock(s: State, p: Pid, ok: bool)
    requires Inv(s) && p in s.procs && !Holds(s.procs[p].server)
    ensures Inv(CreateStep(s, p, ok))
  {
    var s' := CreateStep(s, p, ok);
    assert ServerOk(s', p, s'.procs[p].server);
    OwnersFrame(s, s', p);
    assert Evolves(s, s');
    hide OwnersOk, Evolves, ClientOk, ServerOk;
    forall q | q in s'.procs ensures ClientOk(s', s'.procs[q].client) {
      ClientFrame(s, s', s.procs[q].client);
    }
    forall q | q in s'.procs ensures ServerOk(s', q, s'.procs[q].server) {
      if q != p { ServerFrame(s, s', q, s.procs[q].server); }
    }
  }

  lemma BindSegment(s: State, p: Pid, ok: bool)
    requires Inv(s) && p in s.procs && s.procs[p].server.ShmCreate? && ok && s.shm.None?
    ensures Inv(CreateStep(s, p, ok))
  {
    var s' := CreateStep(s, p, ok);
    forall g | 0 <= g < |s'.segments| ensures OwnerOk(s', g, s'.segments[g].master) {
      if g < |s.segments| { assert OwnerOk(s, g, s.segments[g].master); }
    }
    HolderStep(s, s', p);
  }

  /** Unbinding the queue name, the segment name, or both. */
  lemma Unbound(s: State, p: Pid, v: Server, keepShm: bool)
    requires Inv(s) && p in s.procs && s.lock == Some(p) && Holds(v) && (keepShm || s.mq == None)
    requires var s' := s.(mq := None, shm := if keepShm then s.shm else None); ServerOk(s', p, v)
    requires forall g :: InService(s.procs[p].server, g) ==> InService(v, g)
    ensures Inv(At(s.(mq := None, shm := if keepShm then s.shm else None), p, v))
  {
    var s' := At(s.(mq := None, shm := if keepShm then s.shm else None), p, v);
    OwnersFrame(s, s', p);
    HolderStep(s, s', p);
  }

  /** Writing an owner field of the bound segment; whoever it named is not live, or is
      the holder itself. */
  lemma Marked(s: State, p: Pid, g: SegmentId, owner: Owner, v: Server)
    requires Inv(s) && p in s.procs && s.lock == Some(p) && Holds(v) && g < |s.segments|
    requires forall h :: InService(s.procs[p].server, h) || InService(v, h) ==> h == g
    requires owner.Owned? ==> owner.pid == p && InService(v, g)
    requires ServerOk(Mark(s, g, owner), p, v)
    ensures Inv(At(Mark(s, g, owner), p, v))
  {
    var s' := At(Mark(s, g, owner), p, v);
    forall h | 0 <= h < |s'.segments| ensures OwnerOk(s', h, s'.segments[h].master) {
      assert OwnerOk(s, h, s.segments[h].master);
    }
    HolderStep(s, s', p);
  }

  lemma QueueMade(s: State, p: Pid, g: SegmentId)
    requires Inv(s) && p in s.procs && s.procs[p].server == QueueCreate(g)
    ensures Inv(MakeQueue(s, p, g))
  {
    var s' := MakeQueue(s, p, g);
    assert ServerOk(s, p, s.procs[p].server);
    OwnersFrame(s, s', p);
    HolderStep(s, s', p);
  }

  lemma CreateKeeps(s: State, p: Pid, ok: bool)
    requires Inv(s) && p in s.procs
    ensures Inv(CreateStep(s, p, ok))
  {
    hide LockOk, NamesOk, OwnersOk;
    var v := s.procs[p].server;
    assert ServerOk(s, p, v);
    if Holds(v) { HolderHolds(s, p); }
    match v
    case Off => TakeLock(s, p, ok);
    case Lock => TakeLock(s, p, ok);
    case ShmCreate(n) =>
      if ok && s.shm.None? { BindSegment(s, p, ok); }
      else { Moved(s, p, if ok then PokeOpen(n) else Unlock); }
    case Truncate(n, g) => Moved(s, p, if ok then Map(n, g) else CreateUnlink(g));
    case Map(n, g) => Moved(s, p, if ok then Zero(g) else CreateUnlink(g));
    case CreateUnlink(g) => Unbound(s, p, Unlock, false);
    case Zero(g) => Marked(s, p, g, Unset, QueueCreate(g));
    case QueueCreate(g) =>
      if ok { QueueMade(s, p, g); } else { Moved(s, p, Unlock); }
    case Publish(g, q) => Moved(s, p, StorePid(g, q));
    case _ =>
  }

  lemma HolderHolds(s: State, p: Pid)
    requires Inv(s) && p in s.procs && Holds(s.procs[p].server)
    ensures s.lock == Some(p)
  {}

  lemma RunKeeps(s: State, p: Pid, ok: bool)
    requires Inv(s) && p in s.procs
    ensures Inv(RunStep(s, p, ok))
  {
    hide LockOk, NamesOk, OwnersOk;
    var v := s.procs[p].server;
    assert ServerOk(s, p, v);
    if Holds(v) { HolderHolds(s, p); }
    match v
    case StorePid(g, q) => Marked(s, p, g, Owned(p), SpawnRumble(g, q));
    case SpawnRumble(g, q) => Moved(s, p, if ok then Serving(g, q) else StopQueueUnlink(g));
    case Serving(g, q) => Moved(s, p, StopQueueUnlink(g));
    case StopQueueUnlink(g) => Unbound(s, p, StopMark(g), true);
    case StopMark(g) => Marked(s, p, g, Broken, StopUnlink(g));
    case StopUnlink(g) => Unbound(s, p, Unlock, false);
    case Unlock => LetGo(s, p);
    case _ =>
  }

  lemma LetGo(s: State, p: Pid)
    requires Inv(s) && p in s.procs && s.procs[p].server.Unlock?
    ensures Inv(At(s.(lock := None), p, Off))
  {
    var s' := At(s.(lock := None), p, Off);
    OwnersFrame(s, s', p);
    HolderStep(s, s', p);
  }

  /** The poking process, which holds the lock, never finds a live owner. */
  lemma PokedNotLive(s: State, p: Pid, g: SegmentId)
    requires Inv(s) && p in s.procs && s.lock == Some(p) && g < |s.segments|
    requires Phase(s.procs[p].server).Poking?
    ensures s.segments[g].master.Owned? ==> s.segments[g].master.pid in s.dead
  {
    assert OwnerOk(s, g, s.segments[g].master);
    if Live(s, s.segments[g].master) { OwnerCurrent(s, g); }
  }

  lemma PokeKeeps(s: State, p: Pid, ok: bool)
    requires Inv(s) && p in s.procs
    ensures Inv(PokeStep(s, p, ok))
  {
    hide LockOk, OwnersOk, NamesOk;
    var v := s.procs[p].server;
    assert ServerOk(s, p, v);
    if Holds(v) { HolderHolds(s, p); }
    ShmBound(s);
    match v
    case PokeOpen(n) => Moved(s, p, if ok then PokeMap(n, s.shm.value) else Unlock);
    case PokeMap(n, g) => Moved(s, p, if ok then PokeRead(n, g, OWNER_TRIES) else Unlock);
    case PokeRead(n, g, tries) =>
      PokedNotLive(s, p, g);
      var seen := MasterOf(s, g);
      Moved(s, p, if seen.Unset? && tries > 0 then PokeRead(n, g, tries - 1) else PokeKill(n, g, seen));
    case PokeKill(n, g, seen) =>
      KeysApart(s);
      Moved(s, p, PokeMark(n, g));
    case PokeMark(n, g) => Marked(s, p, g, Broken, PokeQueueUnlink(n, g));
    case PokeQueueUnlink(n, g) => Unbound(s, p, PokeUnlink(n, g), true);
    case PokeUnlink(n, g) => Unbound(s, p, ShmCreate(n + 1), false);
    case _ =>
  }

  lemma ShmBound(s: State)
    requires Inv(s)
    ensures s.shm.Some? ==> s.shm.value < |s.segments|
  {}

  lemma KeysApart(s: State)
    requires Inv(s)
    ensures s.procs.Keys !! s.dead
  {}

  lemma StepKeeps(s: State, a: Action)
    requires Inv(s)
    ensures Inv(Step(s, a))
  {
    hide Inv;
    match a
    case Start(p) => StartKeeps(s, p);
    case Crash(p) => CrashKeeps(s, p);
    case ServerStep(p, ok) =>
      if p in s.procs {
        CreateKeeps(s, p, ok);
        RunKeeps(s, p, ok);
        PokeKeeps(s, p, ok);
      }
    case ClientStep(p, ok) =>
      if p in s.procs { ClientKeeps(s, p, ok); }
  }

  lemma {:induction false} RunKeepsInvariant(s: State, actions: seq<Action>)
    requires Inv(s)
    ensures Inv(Run(s, actions))
    decreases |actions|
  {
    hide Inv, Step;
    if actions != [] {
      StepKeeps(s, actions[0]);
      RunKeepsInvariant(Step(s, actions[0]), actions[1..]);
    }
  }

  lemma ReachableInv(actions: seq<Action>)
    ensures Inv(Run(INITIAL, actions))
  {
    RunKeepsInvariant(INITIAL, actions);
  }
}
