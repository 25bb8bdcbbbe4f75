/** How often the owner field of a segment is read before it is believed, over whole runs: the
    retries of a client and of a server that finds the shared name taken. */
module ServiceReads {
  import opened ServiceProtocol
  import opened ServiceInvariant
  import opened ServiceTheorems
  import opened Wrappers

  // ------------------------------------------------------------ the clients

  /** What a client has met in the owner field of its segment, read by read, since it last
      began to look. */
  ghost function ClientReads(actions: seq<Action>, p: Pid): seq<Owner>
  {
    if actions == [] then []
    else
      var rest, a := actions[..|actions| - 1], actions[|actions| - 1];
      var s := Run(INITIAL, rest);
      if !(a.ClientStep? && a.pid == p && p in s.procs) then ClientReads(rest, p)
      else match s.procs[p].client
        case Connected(_, _) => []
        case Reading(g, _, _) => ClientReads(rest, p) + [MasterOf(s, g)]
        case _ => ClientReads(rest, p)
  }

  ghost predicate AllUnset(met: seq<Owner>)
  {
    forall i :: 0 <= i < |met| ==> met[i] == Unset
  }

  /** The reads settled on `seen`: it is the last one, nothing was set before, and if nothing is
      set even then, there were six of them. */
  ghost predicate Settled(met: seq<Owner>, seen: Owner)
  {
    && 1 <= |met| <= 6 && met[|met| - 1] == seen
    && AllUnset(met[..|met| - 1])
    && (seen == Unset ==> |met| == 6)
  }

  ghost predicate ReadsFit(c: Client, met: seq<Owner>)
  {
    match c
    case Reading(_, _, tries) => |met| + tries == 5 && AllUnset(met)
    case Kill(_, _, seen, _) => Settled(met, seen)
    case Alive(_, _, pid, _) => Settled(met, Owned(pid))
    case _ => true
  }

  lemma OneMoreRead(met: seq<Owner>, seen: Owner, tries: nat)
    requires |met| + tries == 5 && AllUnset(met)
    ensures var now := met + [seen];
      if seen == Unset && tries > 0 then |now| + tries - 1 == 5 && AllUnset(now) else Settled(now, seen)
  {
    assert (met + [seen])[..|met|] == met;
  }

  /** One step of the client itself. */
  lemma OwnStepFits(s: State, p: Pid, ok: bool, met: seq<Owner>)
    requires p in s.procs && ReadsFit(s.procs[p].client, met)
    ensures var c := s.procs[p].client;
      ReadsFit(ClientNext(s, p, ok).procs[p].client,
               if c.Connected? then [] else if c.Reading? then met + [MasterOf(s, c.seg)] else met)
  {
    var c := s.procs[p].client;
    if c.Connected? { NothingMet(); }
    if c.Reading? { OneMoreRead(met, MasterOf(s, c.seg), c.tries); }
    hide IsCurrent, MasterOf, AllUnset, Settled, Self;
  }

  lemma NothingMet()
    ensures AllUnset([])
  {}

  lemma OtherStepFits(s: State, a: Action, p: Pid)
    requires !(a.ClientStep? && a.pid == p)
    ensures p in Step(s, a).procs ==>
      Step(s, a).procs[p].client == if p in s.procs then s.procs[p].client else Idle
  {
    match a
    case ServerStep(q, ok) => if q in s.procs { ServerKeepsOthers(s, q, ok); }
    case ClientStep(q, ok) => if q in s.procs { ClientKeepsOthers(s, q, ok, p); }
    case _ =>
  }

  lemma IdleFits(met: seq<Owner>)
    ensures ReadsFit(Idle, met)
  {}

  /** In every run a client that still reads has met only an unset owner, once for each retry
      it has used; one that has stopped reading stopped at the first owner that was set, or at
      the sixth read; and one that is judged alive is so by the owner it stopped at. */
  lemma {:induction false} ClientRetries(actions: seq<Action>, p: Pid)
    requires p in Run(INITIAL, actions).procs
    ensures ReadsFit(Run(INITIAL, actions).procs[p].client, ClientReads(actions, p))
    decreases |actions|
  {
    hide ReadsFit, Advance, ClientNext;
    if actions == [] {
      assert false;
    } else {
      var rest, a := actions[..|actions| - 1], actions[|actions| - 1];
      var s := Run(INITIAL, rest);
      assert actions == rest + [a];
      RunSnoc(INITIAL, rest, a);
      hide Run;
      if p in s.procs {
        ClientRetries(rest, p);
        if a.ClientStep? && a.pid == p { OwnStepFits(s, p, a.ok, ClientReads(rest, p)); }
      }
      if !(a.ClientStep? && a.pid == p) {
        OtherStepFits(s, a, p);
        hide Step;
        if p !in s.procs { assert ReadsFit(Idle, ClientReads(actions, p)) by { IdleFits(ClientReads(actions, p)); } }
      }
    }
  }

  lemma ReadsNext(actions: seq<Action>, p: Pid, ok: bool)
    requires var s := Run(INITIAL, actions); p in s.procs && s.procs[p].client.Reading?
    ensures ClientReads(actions + [ClientStep(p, ok)], p)
      == ClientReads(actions, p) + [MasterOf(Run(INITIAL, actions), Run(INITIAL, actions).procs[p].client.seg)]
  {
    var all := actions + [ClientStep(p, ok)];
    assert all[..|all| - 1] == actions;
    hide Run, MasterOf;
  }

  /** A client that reads goes on reading exactly when it has met an unset owner fewer than six
      times; otherwise it goes on to the verdict, with the owner of its last read. */
  lemma ReadsOnIff(actions: seq<Action>, p: Pid, ok: bool)
    requires var s := Run(INITIAL, actions); p in s.procs && s.procs[p].client.Reading?
    ensures var s := Run(INITIAL, actions);
      var c := Step(s, ClientStep(p, ok)).procs[p].client;
      var met := ClientReads(actions + [ClientStep(p, ok)], p);
      && met != [] && c.seg == s.procs[p].client.seg && c.queue == s.procs[p].client.queue
      && (c.Reading? <==> met[|met| - 1] == Unset && |met| < 6)
      && (!c.Reading? ==> c.Kill? && c.seen == met[|met| - 1])
  {
    ClientRetries(actions, p);
    ReadsNext(actions, p, ok);
    hide Run, IsCurrent, MasterOf, AllUnset;
  }

  /** The verdict: alive exactly when the last read met the id of a process that is running. */
  lemma JudgedIff(actions: seq<Action>, p: Pid, ok: bool)
    requires var s := Run(INITIAL, actions); p in s.procs && s.procs[p].client.Kill?
    ensures var s := Run(INITIAL, actions);
      var met := ClientReads(actions, p);
      var c := Step(s, ClientStep(p, ok)).procs[p].client;
      && met != []
      && (c.Alive? <==> met[|met| - 1].Owned? && met[|met| - 1].pid in s.procs)
      && (c.Alive? ==> c.pid == met[|met| - 1].pid && c.seg == s.procs[p].client.seg)
      && (!c.Alive? ==> c.Idle?)
  {
    ClientRetries(actions, p);
    hide Run, AllUnset;
  }

  // ------------------------------------------------------------ the servers

  /** What a server thread that found the shared name taken has met in the owner field, since
      it mapped the segment. */
  ghost function PokeReads(actions: seq<Action>, p: Pid): seq<Owner>
  {
    if actions == [] then []
    else
      var rest, a := actions[..|actions| - 1], actions[|actions| - 1];
      var s := Run(INITIAL, rest);
      if !(a.ServerStep? && a.pid == p && p in s.procs) then PokeReads(rest, p)
      else match s.procs[p].server
        case PokeMap(_, _) => []
        case PokeRead(_, g, _) => PokeReads(rest, p) + [MasterOf(s, g)]
        case _ => PokeReads(rest, p)
  }

  ghost predicate PokesFit(v: Server, met: seq<Owner>)
  {
    match v
    case PokeRead(_, _, tries) => |met| + tries == 5 && AllUnset(met)
    case PokeKill(_, _, seen) => Settled(met, seen)
    case _ => true
  }

  /** Where a step of the server thread leads: into a read or a verdict only from a mapping or
      another read. */
  lemma PokeStepFits(s: State, p: Pid, ok: bool, met: seq<Owner>)
    requires p in s.procs && Phase(s.procs[p].server).Poking? && PokesFit(s.procs[p].server, met)
    ensures var v := s.procs[p].server;
      PokesFit(PokeStep(s, p, ok).procs[p].server,
               if v.PokeMap? then [] else if v.PokeRead? then met + [MasterOf(s, v.seg)] else met)
  {
    var v := s.procs[p].server;
    if v.PokeMap? { NothingMet(); }
    if v.PokeRead? { OneMoreRead(met, MasterOf(s, v.seg), v.tries); }
    hide MasterOf, AllUnset, Settled;
  }

  lemma OtherStepsFit(s: State, p: Pid, ok: bool, met: seq<Owner>)
    requires p in s.procs && !Phase(s.procs[p].server).Poking?
    ensures PokesFit(Advance(s, p, ok).procs[p].server, met)
  {
    hide AllUnset, Settled, Mark;
  }

  lemma OwnServerFits(s: State, p: Pid, ok: bool, met: seq<Owner>)
    requires p in s.procs && PokesFit(s.procs[p].server, met)
    ensures var v := s.procs[p].server;
      PokesFit(Advance(s, p, ok).procs[p].server,
               if v.PokeMap? then [] else if v.PokeRead? then met + [MasterOf(s, v.seg)] else met)
  {
    if Phase(s.procs[p].server).Poking? { PokeStepFits(s, p, ok, met); } else { OtherStepsFit(s, p, ok, met); }
    hide PokesFit, PokeStep, CreateStep, RunStep;
  }

  lemma OtherKeepsServer(s: State, a: Action, p: Pid)
    requires !(a.ServerStep? && a.pid == p)
    ensures p in Step(s, a).procs ==>
      Step(s, a).procs[p].server == if p in s.procs then s.procs[p].server else Off
  {
    match a
    case ServerStep(q, ok) => if q in s.procs { ServerKeepsOthers(s, q, ok); }
    case ClientStep(q, ok) => if q in s.procs { ClientKeepsServers(s, q, ok); }
    case _ =>
  }

  lemma OffFits(met: seq<Owner>)
    ensures PokesFit(Off, met)
  {}

  /** The same for servers: only an owner that is set, or six reads of an unset one, end the
      reading. */
  lemma {:induction false} ServerRetries(actions: seq<Action>, p: Pid)
    requires p in Run(INITIAL, actions).procs
    ensures PokesFit(Run(INITIAL, actions).procs[p].server, PokeReads(actions, p))
    decreases |actions|
  {
    hide PokesFit, Advance, ClientNext;
    if actions == [] {
      assert false;
    } else {
      var rest, a := actions[..|actions| - 1], actions[|actions| - 1];
      var s := Run(INITIAL, rest);
      assert actions == rest + [a];
      RunSnoc(INITIAL, rest, a);
      hide Run;
      if p in s.procs {
        ServerRetries(rest, p);
        if a.ServerStep? && a.pid == p { OwnServerFits(s, p, a.ok, PokeReads(rest, p)); }
      }
      if !(a.ServerStep? && a.pid == p) {
        OtherKeepsServer(s, a, p);
        hide Step;
        if p !in s.procs { OffFits(PokeReads(actions, p)); }
      }
    }
  }

  lemma PokesNext(actions: seq<Action>, p: Pid, ok: bool)
    requires var s := Run(INITIAL, actions); p in s.procs && s.procs[p].server.PokeRead?
    ensures PokeReads(actions + [ServerStep(p, ok)], p)
      == PokeReads(actions, p) + [MasterOf(Run(INITIAL, actions), Run(INITIAL, actions).procs[p].server.seg)]
  {
    var all := actions + [ServerStep(p, ok)];
    assert all[..|all| - 1] == actions;
    hide Run, MasterOf;
  }

  /** A server that found the name taken goes on reading the owner exactly when it has met an
      unset one fewer than six times. */
  lemma PokesOnIff(actions: seq<Action>, p: Pid, ok: bool)
    requires var s := Run(INITIAL, actions); p in s.procs && s.procs[p].server.PokeRead?
    ensures var s := Run(INITIAL, actions);
      var v := Step(s, ServerStep(p, ok)).procs[p].server;
      var met := PokeReads(actions + [ServerStep(p, ok)], p);
      && met != []
      && (v.PokeRead? <==> met[|met| - 1] == Unset && |met| < 6)
      && (!v.PokeRead? ==> v.PokeKill? && v.seen == met[|met| - 1] && v.seg == s.procs[p].server.seg)
  {
    ServerRetries(actions, p);
    PokesNext(actions, p, ok);
    hide Run, MasterOf, AllUnset;
  }

  // ---------------------------------------------------- the start-up race

  /** A client looks at the segment of a server that has not stored its id yet. */
  function Racing(n: nat): State
    requires n <= 7
  {
    var (mine, owned) := ([Segment(1, Unset)], [Segment(1, Owned(1))]);
    if n == 0 then World(StorePid(0, 0), Idle, Some(1), Some(0), Some(0), mine, [0])
    else if n == 1 then World(StorePid(0, 0), Mapped(0), Some(1), Some(0), Some(0), mine, [0])
    else if n == 2 then World(StorePid(0, 0), Connected(0, 0), Some(1), Some(0), Some(0), mine, [0])
    else if n == 3 then World(StorePid(0, 0), Reading(0, 0, 5), Some(1), Some(0), Some(0), mine, [0])
    else if n == 4 then World(StorePid(0, 0), Reading(0, 0, 4), Some(1), Some(0), Some(0), mine, [0])
    else if n == 5 then World(SpawnRumble(0, 0), Reading(0, 0, 4), Some(1), Some(0), Some(0), owned, [0])
    else if n == 6 then World(SpawnRumble(0, 0), Kill(0, 0, Owned(1), true), Some(1), Some(0), Some(0), owned, [0])
    else World(SpawnRumble(0, 0), Alive(0, 0, 1, true), Some(1), Some(0), Some(0), owned, [0])
  }

  lemma RacingClient(n: nat)
    requires n < 7 && n != 4
    ensures Step(Racing(n), ClientStep(2, true)) == Racing(n + 1)
  {
    assert Racing(n).procs[2 := Racing(n + 1).procs[2]] == Racing(n + 1).procs;
  }

  lemma RacingServer()
    ensures Step(Racing(4), ServerStep(1, true)) == Racing(5)
  {
    assert Racing(4).procs[1 := Racing(5).procs[1]] == Racing(5).procs;
  }

  const BEFORE_RACE: seq<Action> := [Start(1)] + [Start(2)] + Times(ServerStep(1, true), 8)
  const RACE: seq<Action> :=
    BEFORE_RACE + Times(ClientStep(2, true), 4) + [ServerStep(1, true)] + Times(ClientStep(2, true), 2)

  lemma BeforeRace()
    ensures Run(INITIAL, BEFORE_RACE) == Racing(0)
  {
    hide Run, Step;
    BothStart();
    ComesUp(8);
    RunConcat(INITIAL, [Start(1)] + [Start(2)], Times(ServerStep(1, true), 8));
    hide Times;
    assert Coming(8) == Racing(0);
  }

  lemma {:induction false} Races(from: nat, n: nat)
    requires (from == 0 && n <= 4) || (from == 5 && n <= 2)
    ensures Run(Racing(from), Times(ClientStep(2, true), n)) == Racing(from + n)
  {
    hide Step, Racing;
    if n > 0 {
      Races(from, n - 1);
      RacingClient(from + n - 1);
      RunTimes(Racing(from), ClientStep(2, true), n);
    }
  }

  /** The retries at work: a client's first read meets an unset owner, then the server stores
      its id, and the second read leads to a positive verdict. */
  lemma StartUpRun()
    ensures var s := Run(INITIAL, RACE);
      && 2 in s.procs && s.procs[2].client == Alive(0, 0, 1, true)
      && ClientReads(RACE, 2) != [] && ClientReads(RACE, 2)[|ClientReads(RACE, 2)| - 1] == Owned(1)
  {
    hide Run, Step;
    BeforeRace();
    Races(0, 4);
    RunConcat(INITIAL, BEFORE_RACE, Times(ClientStep(2, true), 4));
    RunSnoc(INITIAL, BEFORE_RACE + Times(ClientStep(2, true), 4), ServerStep(1, true));
    RacingServer();
    Races(5, 2);
    RunConcat(INITIAL, BEFORE_RACE + Times(ClientStep(2, true), 4) + [ServerStep(1, true)], Times(ClientStep(2, true), 2));
    hide Times, ClientReads;
    ClientRetries(RACE, 2);
  }
}
