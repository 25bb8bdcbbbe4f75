/** The ownership protocol of src/xinput_service.c, with the client half of
    src/xinput_gamepad.c, as a transition system.

    Any number of processes run the server code and the client code interleaved, one
    system call or store per step, in the order of the source.  A process may crash at
    any point: its lock is freed, the names it created stay.  A failing system call is
    a step with `ok == false`; the outcomes EEXIST and ENOENT follow from the state.

    Process ids are never reused, and at most one server thread runs per process. */
module ServiceProtocol {
  import opened Wrappers

  type Pid = nat
  type SegmentId = nat
  type QueueId = nat

  /** The field master_pid: zero, the broken mark, or a process id. */
  datatype Owner = Unset | Broken | Owned(pid: Pid)

  datatype Segment = Segment(creator: Pid, master: Owner)

  /** Where the server thread of a process is: the name of a constructor is the next
      call or store it will make.  `attempt` counts the calls of create. */
  datatype Server =
    | Off
    | Lock
      // xinput_service_create
    | ShmCreate(attempt: nat)
    | Truncate(attempt: nat, seg: SegmentId)
    | Map(attempt: nat, seg: SegmentId)
    | CreateUnlink(seg: SegmentId)
    | Zero(seg: SegmentId)
    | QueueCreate(seg: SegmentId)
    | QueueUnlink(seg: SegmentId)
    | QueueRecreate(seg: SegmentId)
    | Publish(seg: SegmentId, queue: QueueId)
      // xinput_service_run
    | StorePid(seg: SegmentId, queue: QueueId)
    | SpawnRumble(seg: SegmentId, queue: QueueId)
    | Serving(seg: SegmentId, queue: QueueId)
      // xinput_service_destroy
    | StopQueueUnlink(seg: SegmentId)
    | StopMark(seg: SegmentId)
    | StopUnlink(seg: SegmentId)
    | Unlock
      // xinput_service_poke
    | PokeOpen(attempt: nat)
    | PokeMap(attempt: nat, seg: SegmentId)
    | PokeRead(attempt: nat, seg: SegmentId, tries: nat)
    | PokeKill(attempt: nat, seg: SegmentId, seen: Owner)
    | PokeMark(attempt: nat, seg: SegmentId)
    | PokeQueueUnlink(attempt: nat, seg: SegmentId)
    | PokeUnlink(attempt: nat, seg: SegmentId)
    | PokeTouch(seg: SegmentId)

  /** Where the client half is.  `current` is a history flag: whether the segment was
      the one bound to the name, with its owner holding the lock, when the owner field
      was read. */
  datatype Client =
    | Idle
    | Mapped(seg: SegmentId)
    | Connected(seg: SegmentId, queue: QueueId)
    | Reading(seg: SegmentId, queue: QueueId, tries: nat)
    | Kill(seg: SegmentId, queue: QueueId, seen: Owner, current: bool)
    | Alive(seg: SegmentId, queue: QueueId, pid: Pid, current: bool)
      // judged alive because this process is itself the service
    | SelfAlive(seg: SegmentId, queue: QueueId)

  datatype Process = Process(server: Server, client: Client)

  datatype State = State(
    procs: map<Pid, Process>,
    dead: set<Pid>,
    lock: Option<Pid>,
    shm: Option<SegmentId>,
    mq: Option<QueueId>,
    segments: seq<Segment>,
    queues: seq<SegmentId>)   // for which segment each queue was made

  datatype Action =
    | Start(pid: Pid)
    | Crash(pid: Pid)
    | ServerStep(pid: Pid, ok: bool)
    | ClientStep(pid: Pid, ok: bool)

  const INITIAL: State := State(map[], {}, None, None, None, [], [])

  /** The five retries after the first look at an unset owner field. */
  const OWNER_TRIES: nat := 5

  predicate Live(s: State, owner: Owner)
  {
    owner.Owned? && owner.pid in s.procs
  }

  function At(s: State, p: Pid, server: Server): State
    requires p in s.procs
  {
    s.(procs := s.procs[p := s.procs[p].(server := server)])
  }

  function ClientAt(s: State, p: Pid, client: Client): State
    requires p in s.procs
  {
    s.(procs := s.procs[p := s.procs[p].(client := client)])
  }

  function Mark(s: State, seg: SegmentId, owner: Owner): State
  {
    if seg < |s.segments| then s.(segments := s.segments[seg := s.segments[seg].(master := owner)]) else s
  }

  function MasterOf(s: State, seg: SegmentId): Owner
  {
    if seg < |s.segments| then s.segments[seg].master else Unset
  }

  // -------------------------------------------------------- the server's steps

  /** xinput_service_lock_acquire and xinput_service_create. */
  function CreateStep(s: State, p: Pid, ok: bool): State
    requires p in s.procs
  {
    match s.procs[p].server
    case Off => At(s, p, Lock)
    case Lock =>
      if ok && s.lock.None? then At(s.(lock := Some(p)), p, ShmCreate(1)) else At(s, p, Off)
    case ShmCreate(n) =>
      if !ok then At(s, p, Unlock)
      else if s.shm.Some? then At(s, p, PokeOpen(n))
      else
        var seg := |s.segments|;
        At(s.(shm := Some(seg), segments := s.segments + [Segment(p, Unset)]), p, Truncate(n, seg))
    case Truncate(n, seg) => At(s, p, if ok then Map(n, seg) else CreateUnlink(seg))
    case Map(n, seg) => At(s, p, if ok then Zero(seg) else CreateUnlink(seg))
    case CreateUnlink(seg) => At(s.(shm := None), p, Unlock)
    case Zero(seg) => At(Mark(s, seg, Unset), p, QueueCreate(seg))
    case QueueCreate(seg) =>
      if !ok then At(s, p, Unlock)
      else if s.mq.Some? then At(s, p, QueueUnlink(seg))
      else MakeQueue(s, p, seg)
    case QueueUnlink(seg) => At(s.(mq := None), p, QueueRecreate(seg))
    case QueueRecreate(seg) =>
      if !ok || s.mq.Some? then At(s, p, Unlock) else MakeQueue(s, p, seg)
    case Publish(seg, q) => At(s, p, StorePid(seg, q))
    case _ => s
  }

  function MakeQueue(s: State, p: Pid, seg: SegmentId): State
    requires p in s.procs
  {
    var q := |s.queues|;
    At(s.(mq := Some(q), queues := s.queues + [seg]), p, Publish(seg, q))
  }

  /** xinput_service_run, xinput_service_destroy and xinput_service_lock_release.  A
      failed create reaches destroy with nothing published, so destroy does nothing. */
  function RunStep(s: State, p: Pid, ok: bool): State
    requires p in s.procs
  {
    match s.procs[p].server
    case StorePid(seg, q) => At(Mark(s, seg, Owned(p)), p, SpawnRumble(seg, q))
    case SpawnRumble(seg, q) => At(s, p, if ok then Serving(seg, q) else StopQueueUnlink(seg))
    case Serving(seg, q) => At(s, p, StopQueueUnlink(seg))
    case StopQueueUnlink(seg) => At(s.(mq := None), p, StopMark(seg))
    case StopMark(seg) => At(Mark(s, seg, Broken), p, StopUnlink(seg))
    case StopUnlink(seg) => At(s.(shm := None), p, Unlock)
    case Unlock => At(s.(lock := None), p, Off)
    case _ => s
  }

  /** xinput_service_poke. */
  function PokeStep(s: State, p: Pid, ok: bool): State
    requires p in s.procs
  {
    match s.procs[p].server
    case PokeOpen(n) =>
      if !ok then At(s, p, Unlock)
      else if s.shm.None? then At(s, p, ShmCreate(n + 1))
      else At(s, p, PokeMap(n, s.shm.value))
    case PokeMap(n, seg) => At(s, p, if ok then PokeRead(n, seg, OWNER_TRIES) else Unlock)
    case PokeRead(n, seg, tries) =>
      var seen := MasterOf(s, seg);
      if seen.Unset? && tries > 0 then At(s, p, PokeRead(n, seg, tries - 1))
      else At(s, p, PokeKill(n, seg, seen))
    case PokeKill(n, seg, seen) =>
      At(s, p, if Live(s, seen) then PokeTouch(seg) else PokeMark(n, seg))
    case PokeMark(n, seg) => At(Mark(s, seg, Broken), p, PokeQueueUnlink(n, seg))
    case PokeQueueUnlink(n, seg) => At(s.(mq := None), p, PokeUnlink(n, seg))
    case PokeUnlink(n, seg) => At(s.(shm := None), p, ShmCreate(n + 1))
    case PokeTouch(seg) => At(s, p, Unlock)
    case _ => s
  }

  // -------------------------------------------------------- the client's steps

  /** xinput_service_self: the server thread of this process has published its segment and
      not yet let go of it. */
  predicate Self(v: Server)
  {
    v.StorePid? || v.SpawnRumble? || v.Serving? || v.StopQueueUnlink? || v.StopMark? || v.StopUnlink?
  }

  /** xinput_gamepad_service_connect and xinput_gamepad_service_is_alive. */
  function ClientNext(s: State, p: Pid, ok: bool): State
    requires p in s.procs
  {
    match s.procs[p].client
    case Idle =>
      if ok && s.shm.Some? then ClientAt(s, p, Mapped(s.shm.value)) else s
    case Mapped(seg) =>
      if ok && s.mq.Some? then ClientAt(s, p, Connected(seg, s.mq.value)) else ClientAt(s, p, Idle)
    case Connected(seg, q) =>
      ClientAt(s, p, if !ok then Idle
                     else if Self(s.procs[p].server) then SelfAlive(seg, q)
                     else Reading(seg, q, OWNER_TRIES))
    case Reading(seg, q, tries) =>
      var seen := MasterOf(s, seg);
      if seen.Unset? && tries > 0 then ClientAt(s, p, Reading(seg, q, tries - 1))
      else ClientAt(s, p, Kill(seg, q, seen, IsCurrent(s, seg, seen)))
    case Kill(seg, q, seen, current) =>
      if Live(s, seen) then ClientAt(s, p, Alive(seg, q, seen.pid, current)) else ClientAt(s, p, Idle)
    case Alive(seg, q, pid, current) =>
      ClientAt(s, p, if ok then Connected(seg, q) else Idle)
    case SelfAlive(seg, q) =>
      ClientAt(s, p, if ok then Connected(seg, q) else Idle)
  }

  predicate IsCurrent(s: State, seg: SegmentId, owner: Owner)
  {
    s.shm == Some(seg) && owner.Owned? && s.lock == Some(owner.pid)
  }

  // ------------------------------------------------------------------- runs

  function Step(s: State, a: Action): State
  {
    match a
    case Start(p) =>
      if p in s.procs || p in s.dead then s else s.(procs := s.procs[p := Process(Off, Idle)])
    case Crash(p) =>
      if p !in s.procs then s
      else s.(procs := s.procs - {p}, dead := s.dead + {p}, lock := if s.lock == Some(p) then None else s.lock)
    case ServerStep(p, ok) =>
      if p !in s.procs then s else Advance(s, p, ok)
    case ClientStep(p, ok) =>
      if p !in s.procs then s else ClientNext(s, p, ok)
  }

  function Advance(s: State, p: Pid, ok: bool): State
    requires p in s.procs
  {
    match Phase(s.procs[p].server)
    case Creating => CreateStep(s, p, ok)
    case Running => RunStep(s, p, ok)
    case Poking => PokeStep(s, p, ok)
  }

  datatype PhaseName = Creating | Running | Poking

  function Phase(v: Server): PhaseName
  {
    match v
    case Off | Lock | ShmCreate(_) | Truncate(_, _) | Map(_, _) | CreateUnlink(_) | Zero(_)
       | QueueCreate(_) | QueueUnlink(_) | QueueRecreate(_) | Publish(_, _) => Creating
    case StorePid(_, _) | SpawnRumble(_, _) | Serving(_, _) | StopQueueUnlink(_) | StopMark(_)
       | StopUnlink(_) | Unlock => Running
    case _ => Poking
  }

  function Run(s: State, actions: seq<Action>): State
    decreases |actions|
  {
    if actions == [] then s else Run(Step(s, actions[0]), actions[1..])
  }
}
