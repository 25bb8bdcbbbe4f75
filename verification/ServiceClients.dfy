/** What the ownership protocol gives its clients: a client that goes on asking finds the
    server, and what the shortcut for the service's own process is worth. */
module ServiceClients {
  import opened ServiceProtocol
  import opened ServiceInvariant
  import opened ServiceTheorems
  import opened Wrappers

  // ------------------------------------------------ clients find the server

  /** The server thread of `owner` is in its idle loop, with this segment. */
  ghost predicate Steady(s: State, owner: Pid, g: SegmentId)
  {
    owner in s.procs && s.procs[owner].server.Serving? && s.procs[owner].server.seg == g
  }

  /** In a well-formed state a steady server has names, lock and owner field to itself. */
  lemma SteadyOwns(s: State, owner: Pid, g: SegmentId)
    requires Inv(s) && Steady(s, owner, g)
    ensures g < |s.segments| && s.segments[g] == Segment(owner, Owned(owner))
    ensures s.shm == Some(g) && s.mq.Some? && s.lock == Some(owner)
    ensures forall h :: 0 <= h < |s.segments| && Live(s, s.segments[h].master) ==> h == g
  {
    assert ServerOk(s, owner, s.procs[owner].server);
    forall h | 0 <= h < |s.segments| && Live(s, s.segments[h].master) ensures h == g {
      OwnerCurrent(s, h);
    }
  }

  /** How many steps of its own a client is from being judged connected to the segment, at
      most.  A client of an older segment first has to find out that it is dead. */
  ghost function Away(s: State, c: Client, owner: Pid, g: SegmentId): nat
  {
    match c
    case Idle => 5
    case Mapped(h) => if h == g then 4 else 15
    case Connected(h, _) => if h == g then 3 else 14
    case Reading(h, _, tries) => if h == g then 2 else 7 + tries
    case Kill(h, _, seen, _) => if h == g && seen == Owned(owner) then 1 else if Live(s, seen) then 17 else 6
    case Alive(h, _, _, _) => if h == g then 0 else 16
    case SelfAlive(h, _) => if h == g then 4 else 16
  }

  lemma AwayBound(s: State, p: Pid, owner: Pid, g: SegmentId)
    requires Inv(s) && p in s.procs
    ensures Away(s, s.procs[p].client, owner, g) <= 17
  {
    assert ClientOk(s, s.procs[p].client);
  }

  ghost predicate Found(s: State, p: Pid, g: SegmentId)
  {
    p in s.procs && s.procs[p].client.Alive? && s.procs[p].client.seg == g
  }

  /** A succeeding step of the client itself brings it closer. */
  lemma Closer(s: State, p: Pid, owner: Pid, g: SegmentId)
    requires Inv(s) && Steady(s, owner, g) && p in s.procs && p != owner && !Found(s, p, g)
    ensures var s' := ClientNext(s, p, true);
      Away(s', s'.procs[p].client, owner, g) < Away(s, s.procs[p].client, owner, g)
  {
    SteadyOwns(s, owner, g);
    NotHolder(s, p);
    assert ClientOk(s, s.procs[p].client);
    ClientKeepsServers(s, p, true);
    hide Inv, ClientOk;
    CloserFrom(s, p, owner, g);
  }

  lemma CloserFrom(s: State, p: Pid, owner: Pid, g: SegmentId)
    requires p in s.procs && owner in s.procs && p != owner && !Found(s, p, g) && !Self(s.procs[p].server)
    requires ClientOk(s, s.procs[p].client) && g < |s.segments| && s.segments[g] == Segment(owner, Owned(owner))
    requires s.shm == Some(g) && s.mq.Some?
    requires forall h :: 0 <= h < |s.segments| && Live(s, s.segments[h].master) ==> h == g
    requires var s' := ClientNext(s, p, true); s'.procs.Keys == s.procs.Keys
    ensures var s' := ClientNext(s, p, true);
      Away(s', s'.procs[p].client, owner, g) < Away(s, s.procs[p].client, owner, g)
  {
  }

  /** No other action takes it further away. */
  lemma NoFurther(s: State, a: Action, p: Pid, owner: Pid, g: SegmentId)
    requires Inv(s) && Steady(s, owner, g) && p in s.procs && p != owner
    requires a != Crash(p) && a != Crash(owner) && !(a.ServerStep? && a.pid == owner) && !(a.ClientStep? && a.pid == p)
    ensures var s' := Step(s, a);
      && Steady(s', owner, g) && p in s'.procs && s'.procs[p].client == s.procs[p].client
      && Away(s', s'.procs[p].client, owner, g) <= Away(s, s.procs[p].client, owner, g)
  {
    assert ClientOk(s, s.procs[p].client);
    hide Inv, ClientOk;
    match a
    case ServerStep(q, ok) => if q in s.procs { ServerKeepsOthers(s, q, ok); }
    case ClientStep(q, ok) => if q in s.procs { ClientKeepsServers(s, q, ok); ClientKeepsOthers(s, q, ok, p); }
    case _ =>
  }

  function ClientSteps(actions: seq<Action>, p: Pid): nat
  {
    if actions == [] then 0
    else (if actions[0].ClientStep? && actions[0].pid == p then 1 else 0) + ClientSteps(actions[1..], p)
  }

  /** The server goes on serving, and the client neither crashes nor has a call fail. */
  ghost predicate Favourable(actions: seq<Action>, p: Pid, owner: Pid)
  {
    forall i :: 0 <= i < |actions| ==>
      && actions[i] != Crash(p) && actions[i] != Crash(owner) && actions[i] != ClientStep(p, false)
      && !(actions[i].ServerStep? && actions[i].pid == owner)
  }

  lemma {:induction false} ClientReaches(s: State, p: Pid, owner: Pid, g: SegmentId, actions: seq<Action>)
    returns (k: nat)
    requires Inv(s) && Steady(s, owner, g) && p in s.procs && p != owner
    requires Favourable(actions, p, owner) && ClientSteps(actions, p) >= Away(s, s.procs[p].client, owner, g)
    ensures k <= |actions| && Found(Run(s, actions[..k]), p, g)
    decreases |actions|
  {
    if Found(s, p, g) {
      assert Run(s, actions[..0]) == s;
      return 0;
    }
    AwayZero(s, p, owner, g);
    if actions == [] {
      assert false;
    } else {
      var a, rest := actions[0], actions[1..];
      var s' := Step(s, a);
      StepKeeps(s, a);
      OneAction(s, a, p, owner, g);
      assert forall i :: 0 <= i < |rest| ==> rest[i] == actions[i + 1];
      hide Inv, Step, Steady, Away, Found;
      k := ClientReaches(s', p, owner, g, rest);
      assert actions[..k + 1][1..] == rest[..k];
      assert Run(s, actions[..k + 1]) == Run(s', rest[..k]);
      k := k + 1;
    }
  }

  lemma AwayZero(s: State, p: Pid, owner: Pid, g: SegmentId)
    requires p in s.procs && !Found(s, p, g)
    ensures Away(s, s.procs[p].client, owner, g) > 0
  {}

  lemma OneAction(s: State, a: Action, p: Pid, owner: Pid, g: SegmentId)
    requires Inv(s) && Steady(s, owner, g) && p in s.procs && p != owner && !Found(s, p, g)
    requires Favourable([a], p, owner)
    ensures var s' := Step(s, a);
      && Steady(s', owner, g) && p in s'.procs
      && Away(s', s'.procs[p].client, owner, g) + ClientSteps([a], p) <= Away(s, s.procs[p].client, owner, g)
  {
    assert a == [a][0] && [a][1..] == [];
    hide Inv, Away, Found;
    if a == ClientStep(p, true) {
      Closer(s, p, owner, g);
      ClientKeepsServers(s, p, true);
    } else {
      NoFurther(s, a, p, owner, g);
    }
  }

  /** From any reachable state in which some other process is serving: whatever segment the
      client still maps and whatever other processes do, after at most 17 succeeding steps
      of its own it has been judged connected to that server's segment. */
  lemma ClientFindsServer(before: seq<Action>, p: Pid, owner: Pid, g: SegmentId, actions: seq<Action>) returns (k: nat)
    requires var s := Run(INITIAL, before); Steady(s, owner, g) && p in s.procs && p != owner
    requires Favourable(actions, p, owner) && ClientSteps(actions, p) >= 17
    ensures k <= |actions| && Found(Run(Run(INITIAL, before), actions[..k]), p, g)
  {
    ReachableInv(before);
    AwayBound(Run(INITIAL, before), p, owner, g);
    hide Inv, Steady, Away, Found;
    k := ClientReaches(Run(INITIAL, before), p, owner, g, actions);
  }

  // ------------------------------------------------- the service's own client

  /** The segment that the server thread has published. */
  function OwnSegment(v: Server): SegmentId
    requires Self(v)
  {
    v.seg
  }

  /** The shortcut for the service's own process says nothing about the segment its client
      half maps: the next check succeeds whatever that is.  It is the bound segment exactly
      when it is the one the process published itself, and then the client holds the one
      queue made for it. */
  lemma SelfVerdictIff(actions: seq<Action>, p: Pid)
    requires var s := Run(INITIAL, actions);
      p in s.procs && s.procs[p].client.Connected? && Self(s.procs[p].server)
    ensures var s := Run(INITIAL, actions);
      var (c, own) := (s.procs[p].client, OwnSegment(s.procs[p].server));
      && Step(s, ClientStep(p, true)).procs[p].client == SelfAlive(c.seg, c.queue)
      && (s.shm == Some(c.seg) <==> c.seg == own)
      && (c.seg == own ==> c.queue < |s.queues| && s.queues[c.queue] == own
                           && forall q :: 0 <= q < |s.queues| && s.queues[q] == own ==> q == c.queue)
  {
    var s := Run(INITIAL, actions);
    ReachableInv(actions);
    assert ServerOk(s, p, s.procs[p].server) && ClientOk(s, s.procs[p].client) && NamesOk(s);
  }

  /** The server thread has published a segment and not yet unbound it, by the history of its own
      steps. */
  ghost predicate HasPublished(actions: seq<Action>, p: Pid)
  {
    actions != [] &&
    var rest, a := actions[..|actions| - 1], actions[|actions| - 1];
    var s := Run(INITIAL, rest);
    if a == Crash(p) then false
    else if !(a.ServerStep? && a.pid == p && p in s.procs) then HasPublished(rest, p)
    else s.procs[p].server.Publish? || (!s.procs[p].server.StopUnlink? && HasPublished(rest, p))
  }

  lemma OwnStepSelf(s: State, p: Pid, ok: bool)
    requires p in s.procs
    ensures var v := s.procs[p].server;
      Self(Advance(s, p, ok).procs[p].server) <==> v.Publish? || (!v.StopUnlink? && Self(v))
  {
    hide Mark;
  }

  lemma OthersStepSelf(s: State, a: Action, p: Pid)
    requires !(a.ServerStep? && a.pid == p)
    ensures p in Step(s, a).procs ==>
      a != Crash(p) && Step(s, a).procs[p].server == if p in s.procs then s.procs[p].server else Off
    ensures p !in Step(s, a).procs ==> p !in s.procs || a == Crash(p)
  {
    match a
    case ServerStep(q, ok) => if q in s.procs { ServerKeepsOthers(s, q, ok); }
    case ClientStep(q, ok) => if q in s.procs { ClientKeepsServers(s, q, ok); }
    case _ =>
  }

  lemma OwnStepKeeps(s: State, p: Pid, ok: bool)
    ensures p in s.procs <==> p in Step(s, ServerStep(p, ok)).procs
  {
    if p in s.procs { ServerKeepsOthers(s, p, ok); }
  }

  /** In every run a process counts as being itself the service exactly from publishing its
      segment until unbinding it. */
  lemma {:induction false} SelfIffPublished(actions: seq<Action>, p: Pid)
    ensures var s := Run(INITIAL, actions);
      HasPublished(actions, p) <==> p in s.procs && Self(s.procs[p].server)
    decreases |actions|
  {
    if actions != [] {
      var rest, a := actions[..|actions| - 1], actions[|actions| - 1];
      var s := Run(INITIAL, rest);
      assert actions == rest + [a];
      RunSnoc(INITIAL, rest, a);
      SelfIffPublished(rest, p);
      hide Run, Advance, Self;
      if a.ServerStep? && a.pid == p {
        if p in s.procs { OwnStepSelf(s, p, a.ok); }
        OwnStepKeeps(s, p, a.ok);
      } else {
        OthersStepSelf(s, a, p);
        assert !Self(Off) by { OffNotSelf(); }
        hide Step;
      }
    }
  }

  lemma OffNotSelf()
    ensures !Self(Off)
  {}

  // ------------------------------------------------- connecting and letting go

  /** Connecting succeeds exactly when both calls succeed and both names are bound; otherwise the
      client holds nothing. */
  lemma ConnectsIff(s: State, p: Pid, opens: bool, queues: bool)
    requires p in s.procs && s.procs[p].client == Idle
    ensures var r := Run(s, [ClientStep(p, opens)] + [ClientStep(p, queues)]);
      && p in r.procs
      && (r.procs[p].client.Connected? <==> opens && queues && s.shm.Some? && s.mq.Some?)
      && (r.procs[p].client.Connected? ==> r.procs[p].client == Connected(s.shm.value, s.mq.value))
      && (!(opens && s.shm.Some?) ==>
            r.procs[p].client == if queues && s.shm.Some? then Mapped(s.shm.value) else Idle)
      && (opens && s.shm.Some? && !r.procs[p].client.Connected? ==> r.procs[p].client == Idle)
  {
    RunSnoc(s, [ClientStep(p, opens)], ClientStep(p, queues));
    RunSnoc(s, [], ClientStep(p, opens));
    assert [] + [ClientStep(p, opens)] == [ClientStep(p, opens)];
    assert Run(s, []) == s;
    hide Run;
  }

  /** A client whose call fails, or that is finished, lets go of its segment and queue and changes
      nothing else; reading the owner and probing it cannot fail. */
  lemma LetsGo(s: State, p: Pid)
    requires p in s.procs
    ensures var c := s.procs[p].client;
      Step(s, ClientStep(p, false)) ==
        if c.Reading? || c.Kill? then Step(s, ClientStep(p, true))
        else s.(procs := s.procs[p := Process(s.procs[p].server, Idle)])
  {
    assert s.procs[p := s.procs[p]] == s.procs;
  }

  // ------------------------------------------- a run that gets the shortcut

  /** Two processes: 1 runs the server code, 2 the server code and the client code. */
  function Pair(first: Server, second: Server, lock: Option<Pid>, shm: Option<SegmentId>, mq: Option<QueueId>,
                segments: seq<Segment>, queues: seq<SegmentId>): State
  {
    State(map[1 := Process(first, Idle), 2 := Process(second, Connected(0, 0))], {}, lock, shm, mq, segments, queues)
  }

  /** The first server stops. */
  function Going(n: nat): State
    requires n <= 5
  {
    var owned, broken := [Segment(1, Owned(1))], [Segment(1, Broken)];
    if n == 0 then Pair(Serving(0, 0), Off, Some(1), Some(0), Some(0), owned, [0])
    else if n == 1 then Pair(StopQueueUnlink(0), Off, Some(1), Some(0), Some(0), owned, [0])
    else if n == 2 then Pair(StopMark(0), Off, Some(1), Some(0), None, owned, [0])
    else if n == 3 then Pair(StopUnlink(0), Off, Some(1), Some(0), None, broken, [0])
    else if n == 4 then Pair(Unlock, Off, Some(1), None, None, broken, [0])
    else Pair(Off, Off, None, None, None, broken, [0])
  }

  lemma GoingFirst(n: nat)
    requires n < 3
    ensures Step(Going(n), ServerStep(1, true)) == Going(n + 1)
  {
    assert Going(n).procs[1 := Going(n + 1).procs[1]] == Going(n + 1).procs;
  }

  lemma GoingLast(n: nat)
    requires 3 <= n < 5
    ensures Step(Going(n), ServerStep(1, true)) == Going(n + 1)
  {
    assert Going(n).procs[1 := Going(n + 1).procs[1]] == Going(n + 1).procs;
  }

  lemma {:induction false} Goes(n: nat)
    requires n <= 5
    ensures Run(Going(0), Times(ServerStep(1, true), n)) == Going(n)
  {
    hide Step, Going;
    if n > 0 {
      Goes(n - 1);
      if n <= 3 { GoingFirst(n - 1); } else { GoingLast(n - 1); }
      RunTimes(Going(0), ServerStep(1, true), n);
    }
  }

  /** The second one comes up. */
  function Following(n: nat): State
    requires n <= 10
  {
    var past, mine := [Segment(1, Broken)], [Segment(1, Broken), Segment(2, Unset)];
    var owned := [Segment(1, Broken), Segment(2, Owned(2))];
    if n == 0 then Pair(Off, Off, None, None, None, past, [0])
    else if n == 1 then Pair(Off, Lock, None, None, None, past, [0])
    else if n == 2 then Pair(Off, ShmCreate(1), Some(2), None, None, past, [0])
    else if n == 3 then Pair(Off, Truncate(1, 1), Some(2), Some(1), None, mine, [0])
    else if n == 4 then Pair(Off, Map(1, 1), Some(2), Some(1), None, mine, [0])
    else if n == 5 then Pair(Off, Zero(1), Some(2), Some(1), None, mine, [0])
    else if n == 6 then Pair(Off, QueueCreate(1), Some(2), Some(1), None, mine, [0])
    else if n == 7 then Pair(Off, Publish(1, 1), Some(2), Some(1), Some(1), mine, [0, 1])
    else if n == 8 then Pair(Off, StorePid(1, 1), Some(2), Some(1), Some(1), mine, [0, 1])
    else if n == 9 then Pair(Off, SpawnRumble(1, 1), Some(2), Some(1), Some(1), owned, [0, 1])
    else Pair(Off, Serving(1, 1), Some(2), Some(1), Some(1), owned, [0, 1])
  }

  lemma FollowingFirst(n: nat)
    requires n < 4
    ensures Step(Following(n), ServerStep(2, true)) == Following(n + 1)
  {
    assert Following(n).procs[2 := Following(n + 1).procs[2]] == Following(n + 1).procs;
  }

  lemma FollowingThen(n: nat)
    requires 4 <= n < 7
    ensures Step(Following(n), ServerStep(2, true)) == Following(n + 1)
  {
    assert Following(n).procs[2 := Following(n + 1).procs[2]] == Following(n + 1).procs;
  }

  lemma FollowingLast(n: nat)
    requires 7 <= n < 10
    ensures Step(Following(n), ServerStep(2, true)) == Following(n + 1)
  {
    assert Following(n).procs[2 := Following(n + 1).procs[2]] == Following(n + 1).procs;
  }

  lemma {:induction false} Follows(n: nat)
    requires n <= 10
    ensures Run(Following(0), Times(ServerStep(2, true), n)) == Following(n)
  {
    hide Step, Following;
    if n > 0 {
      Follows(n - 1);
      if n <= 4 { FollowingFirst(n - 1); } else if n <= 7 { FollowingThen(n - 1); } else { FollowingLast(n - 1); }
      RunTimes(Following(0), ServerStep(2, true), n);
    }
  }

  const BEFORE_STOP: seq<Action> :=
    [Start(1)] + [Start(2)] + Times(ServerStep(1, true), 10) + Times(ClientStep(2, true), 2)

  /** The first server serves, the second process connects to it, the first server stops and
      the second process becomes the server. */
  const UP_TO_SELF: seq<Action> :=
    BEFORE_STOP + Times(ServerStep(1, true), 5) + Times(ServerStep(2, true), 10)

  lemma BeforeStop()
    ensures Run(INITIAL, BEFORE_STOP) == Going(0)
  {
    hide Run, Step;
    BothStart();
    ComesUp(10);
    Asks(2);
    RunConcat(INITIAL, [Start(1)] + [Start(2)], Times(ServerStep(1, true), 10));
    RunConcat(INITIAL, [Start(1)] + [Start(2)] + Times(ServerStep(1, true), 10), Times(ClientStep(2, true), 2));
    hide Times;
    assert Coming(10) == Asking(0) && Asking(2) == Going(0);
  }

  lemma GoneBefore()
    ensures Going(5) == Following(0)
  {}

  lemma UpToSelf()
    ensures Run(INITIAL, UP_TO_SELF) == Following(10)
  {
    hide Run, Step, Times, Going, Following;
    BeforeStop();
    Goes(5);
    GoneBefore();
    Follows(10);
    RunConcat(INITIAL, BEFORE_STOP, Times(ServerStep(1, true), 5));
    RunConcat(INITIAL, BEFORE_STOP + Times(ServerStep(1, true), 5), Times(ServerStep(2, true), 10));
  }

  /** The shortcut that fails: a process that is itself the service still maps the segment of
      the server before it, which is marked broken and no longer bound, and its client half
      is judged alive with it. */
  lemma SelfRun()
    ensures var s := Run(INITIAL, UP_TO_SELF);
      var late := Step(s, ClientStep(2, true));
      && 2 in late.procs && late.procs[2].client == SelfAlive(0, 0)
      && late.shm == Some(1) && MasterOf(late, 0) == Broken && MasterOf(late, 1) == Owned(2)
  {
    hide Run;
    UpToSelf();
  }
}
