/** The idle shutdown of the service thread in src/xinput_service.c: each pass over the
    devices looks at the time of the last client poke; enough looks in a row without a
    recent one end the service.  Times are microseconds. */
module Idle {

  const PERIOD: int := 5_000_000

  datatype State = State(poke: int, alone: nat, stopped: bool)

  /** A client stores the time of its poke; the thread looks at the clock. */
  datatype Event = Poke(at: int) | Look(at: int)

  /** One pass of the thread's loop. */
  function Observe(s: State, now: int, strikes: int): State
  {
    if strikes <= 0 then s
    else if now < s.poke then s.(poke := now)
    else if now - s.poke <= PERIOD then s.(poke := now, alone := 0)
    else s.(alone := s.alone + 1, stopped := s.alone + 1 >= strikes)
  }

  function Step(s: State, e: Event, strikes: int): State
  {
    if s.stopped then s
    else match e
      case Poke(at) => s.(poke := at)
      case Look(at) => Observe(s, at, strikes)
  }

  /** A fresh segment has never been poked. */
  const START: State := State(0, 0, false)

  ghost function Run(es: seq<Event>, strikes: int): State
  {
    if es == [] then START else Step(Run(es[..|es| - 1], strikes), es[|es| - 1], strikes)
  }

  // ---------------------------------------------- clocks and client activity

  ghost predicate Clock(es: seq<Event>)
  {
    && (forall i :: 0 <= i < |es| ==> 0 <= es[i].at)
    && (forall i, j :: 0 <= i < j < |es| ==> es[i].at <= es[j].at)
  }

  /** No gap longer than a period lies between the events from the last client poke to
      `now`. */
  ghost predicate Chain(es: seq<Event>, now: int)
  {
    if es == [] then now <= PERIOD
    else
      var last := es[|es| - 1];
      now - last.at <= PERIOD && (last.Poke? || Chain(es[..|es| - 1], last.at))
  }

  /** Looks in a row, up to now, that found the chain to the last poke broken. */
  ghost function Broken(es: seq<Event>): nat
  {
    if es == [] then 0
    else
      var rest, e := es[..|es| - 1], es[|es| - 1];
      if e.Poke? then Broken(rest)
      else if Chain(rest, e.at) then 0
      else Broken(rest) + 1
  }

  /** Whether so many looks in a row ever were broken. */
  ghost predicate Abandoned(es: seq<Event>, strikes: int)
  {
    es != [] && (Broken(es) >= strikes || Abandoned(es[..|es| - 1], strikes))
  }

  /** The time of the last client poke. */
  ghost function LastPoke(es: seq<Event>): int
  {
    if es == [] then 0
    else if es[|es| - 1].Poke? then es[|es| - 1].at
    else LastPoke(es[..|es| - 1])
  }

  /** A client poked within the period before `now`. */
  ghost predicate Attended(es: seq<Event>, now: int)
  {
    now - LastPoke(es) <= PERIOD
  }

  /** Looks in a row, up to now, that were not attended. */
  ghost function Unattended(es: seq<Event>): nat
  {
    if es == [] then 0
    else
      var rest, e := es[..|es| - 1], es[|es| - 1];
      if e.Poke? then Unattended(rest)
      else if Attended(rest, e.at) then 0
      else Unattended(rest) + 1
  }

  /** Whether so many looks in a row ever were unattended. */
  ghost predicate Deserted(es: seq<Event>, strikes: int)
  {
    es != [] && (Unattended(es) >= strikes || Deserted(es[..|es| - 1], strikes))
  }

  // ------------------------------------------------------- when it stops

  lemma Earlier(es: seq<Event>)
    requires es != [] && Clock(es)
    ensures Clock(es[..|es| - 1]) && 0 <= es[|es| - 1].at
    ensures forall i :: 0 <= i < |es| - 1 ==> es[..|es| - 1][i] == es[i] && es[i].at <= es[|es| - 1].at
  {}

  /** `now` is not before any of the events. */
  ghost predicate Since(es: seq<Event>, now: int)
  {
    0 <= now && forall i :: 0 <= i < |es| ==> es[i].at <= now
  }

  /** The stored time: the last poke, or a later look whose chain held. */
  ghost predicate Stored(es: seq<Event>, poke: int)
  {
    if es == [] then poke == 0
    else
      var rest, e := es[..|es| - 1], es[|es| - 1];
      if e.Poke? || Chain(rest, e.at) then poke == e.at else Stored(rest, poke)
  }

  /** A look is fresh exactly when the chain holds. */
  lemma {:induction false} FreshIff(es: seq<Event>, poke: int, now: int)
    requires Clock(es) && Since(es, now) && Stored(es, poke)
    ensures poke <= now && (now - poke <= PERIOD <==> Chain(es, now))
  {
    if es != [] {
      var rest, e := es[..|es| - 1], es[|es| - 1];
      Earlier(es);
      if e.Look? && !Chain(rest, e.at) { FreshIff(rest, poke, e.at); }
    }
  }

  /** With a clock that does not go back, the thread stops exactly at the look that
      completes `strikes` looks in a row each of which finds a gap of more than a period
      somewhere since the last client poke. */
  lemma {:induction false} StopsIffAbandoned(es: seq<Event>, strikes: int)
    requires strikes > 0 && Clock(es)
    ensures var s := Run(es, strikes);
      && (s.stopped <==> Abandoned(es, strikes))
      && (!s.stopped ==> s.alone == Broken(es) && Stored(es, s.poke))
  {
    if es != [] {
      var rest, e := es[..|es| - 1], es[|es| - 1];
      Earlier(es);
      StopsIffAbandoned(rest, strikes);
      if !Run(rest, strikes).stopped { FreshIff(rest, Run(rest, strikes).poke, e.at); }
    }
  }

  // ------------------------------------------------ what clients decide alone

  /** A recent poke keeps the chain: whatever looks lie in between, no gap is longer. */
  lemma {:induction false} AttendedChains(es: seq<Event>, now: int)
    requires Clock(es) && Since(es, now) && Attended(es, now)
    ensures Chain(es, now)
  {
    if es != [] {
      Earlier(es);
      if es[|es| - 1].Look? {
        LastPokeBound(es[..|es| - 1], es[|es| - 1].at);
        AttendedChains(es[..|es| - 1], es[|es| - 1].at);
      }
    }
  }

  lemma LastPokeBound(es: seq<Event>, now: int)
    requires Clock(es) && Since(es, now)
    ensures 0 <= LastPoke(es) <= now
  {
    if es != [] {
      Earlier(es);
      LastPokeBound(es[..|es| - 1], es[|es| - 1].at);
    }
  }

  /** The position of the last client poke, or -1: the start of time. */
  ghost function LastPokeAt(es: seq<Event>): (p: int)
    ensures -1 <= p < |es| && (p >= 0 ==> es[p] == Poke(LastPoke(es))) && (p == -1 ==> LastPoke(es) == 0)
    ensures forall i :: p < i < |es| ==> es[i].Look?
  {
    if es == [] then -1
    else if es[|es| - 1].Poke? then |es| - 1
    else LastPokeAt(es[..|es| - 1])
  }

  /** When the event at a position happened; `now` comes after all of them. */
  function TimeOf(es: seq<Event>, now: int, i: int): int
    requires -1 <= i <= |es|
  {
    if i == -1 then 0 else if i == |es| then now else es[i].at
  }

  /** A gap of more than a period between two neighbours, from the last poke to `now`. */
  ghost predicate LongGap(es: seq<Event>, now: int)
  {
    exists i :: LastPokeAt(es) <= i < |es| && GapAfter(es, now, i) > 5_000_000
  }

  function GapAfter(es: seq<Event>, now: int, i: int): int
    requires -1 <= i < |es|
  {
    TimeOf(es, now, i + 1) - TimeOf(es, now, i)
  }

  /** The chain is broken exactly by a long gap. */
  lemma {:induction false} ChainIff(es: seq<Event>, now: int)
    ensures Chain(es, now) <==> !LongGap(es, now)
  {
    var n := |es|;
    if n == 0 {
      assert GapAfter(es, now, -1) == now;
    } else {
      var rest, last := es[..n - 1], es[n - 1];
      assert GapAfter(es, now, n - 1) == now - last.at;
      if last.Look? {
        ChainIff(rest, last.at);
        assert forall i :: -1 <= i < n - 1 ==> GapAfter(rest, last.at, i) == GapAfter(es, now, i);
      }
    }
  }

  /** Client pokes alone decide whether a look is fresh, except when the last poke is more than
      a period ago but no two neighbours since then are: then the thread's own stores keep
      the look fresh. */
  lemma PokesDecideIff(es: seq<Event>, now: int)
    requires Clock(es) && Since(es, now)
    ensures Chain(es, now) != Attended(es, now) <==> now - LastPoke(es) > PERIOD && !LongGap(es, now)
  {
    ChainIff(es, now);
    if Attended(es, now) { AttendedChains(es, now); }
  }

  /** Two looks are further than a period apart, as the sleep between them intends. */
  ghost predicate Spaced(es: seq<Event>)
  {
    forall i, j :: 0 <= i < j < |es| && es[i].Look? && es[j].Look? ==> es[j].at - es[i].at > PERIOD
  }

  lemma SpacedChainIff(es: seq<Event>, now: int)
    requires Clock(es) && Since(es, now) && Spaced(es + [Look(now)])
    ensures Chain(es, now) <==> Attended(es, now)
  {
    PokesDecideIff(es, now);
    if now - LastPoke(es) > PERIOD {
      var last, all := |es| - 1, es + [Look(now)];
      if last > LastPokeAt(es) {
        assert all[last] == es[last] && all[|es|] == Look(now);
      }
      assert GapAfter(es, now, last) > PERIOD;
    }
  }

  lemma {:induction false} SpacedCounts(es: seq<Event>, strikes: int)
    requires Clock(es) && Spaced(es)
    ensures Broken(es) == Unattended(es) && (Abandoned(es, strikes) <==> Deserted(es, strikes))
  {
    if es != [] {
      var rest, e := es[..|es| - 1], es[|es| - 1];
      Earlier(es);
      SpacedCounts(rest, strikes);
      if e.Look? {
        SpacedChainIff(rest, e.at);
      }
    }
  }

  /** So with looks more than a period apart the thread stops exactly at the look that
      completes `strikes` looks in a row without a client poke in the period before. */
  lemma StopsIffDeserted(es: seq<Event>, strikes: int)
    requires strikes > 0 && Clock(es) && Spaced(es)
    ensures var s := Run(es, strikes);
      && (s.stopped <==> Deserted(es, strikes))
      && (!s.stopped ==> s.alone == Unattended(es))
  {
    StopsIffAbandoned(es, strikes);
    SpacedCounts(es, strikes);
  }

  // ------------------------------------------------------------- with clients

  /** The look at position `i` has a client poke in the period before it. */
  ghost predicate PokedBefore(es: seq<Event>, i: nat)
    requires i < |es|
  {
    exists j :: 0 <= j < i && es[j].Poke? && es[i].at - es[j].at <= PERIOD
  }

  lemma LastPokeSince(es: seq<Event>, j: nat)
    requires Clock(es) && j < |es| && es[j].Poke?
    ensures es[j].at <= LastPoke(es)
  {
    Earlier(es);
    if es[|es| - 1].Look? { LastPokeSince(es[..|es| - 1], j); }
  }

  lemma PokedChains(es: seq<Event>, i: nat)
    requires i < |es| && Clock(es) && PokedBefore(es, i)
    ensures Chain(es[..i], es[i].at)
  {
    var j :| 0 <= j < i && es[j].Poke? && es[i].at - es[j].at <= PERIOD;
    var before := es[..i];
    assert before[j] == es[j];
    assert Clock(before) && Since(before, es[i].at);
    LastPokeSince(before, j);
    AttendedChains(before, es[i].at);
  }

  ghost predicate SomeLook(es: seq<Event>, n: nat)
  {
    exists i :: n <= i < |es| && es[i].Look?
  }

  lemma BrokenBelow(es: seq<Event>, strikes: int)
    requires es != [] && !Abandoned(es, strikes)
    ensures Broken(es) < strikes && !Abandoned(es[..|es| - 1], strikes)
  {}

  lemma {:induction false} ChainedCount(es: seq<Event>, n: nat, strikes: int)
    requires strikes > 0 && n <= |es| && !Abandoned(es[..n], strikes)
    requires forall i :: n <= i < |es| && es[i].Look? ==> Chain(es[..i], es[i].at)
    ensures !Abandoned(es, strikes)
    ensures SomeLook(es, n) ==> Broken(es) == 0
  {
    if |es| == n {
      assert es[..n] == es;
    } else {
      var m := |es| - 1;
      var rest := es[..m];
      assert rest[..n] == es[..n];
      assert forall i :: 0 <= i < m ==> rest[..i] == es[..i];
      ChainedCount(rest, n, strikes);
      if rest != [] { BrokenBelow(rest, strikes); }
      if !es[m].Look? && SomeLook(es, n) {
        var i :| n <= i < |es| && es[i].Look?;
        assert rest[i].Look?;
      }
    }
  }

  /** Once every look has a client poke in the period before it, no strike is counted and
      the thread goes on, however close the looks are. */
  lemma PokedGoesOn(es: seq<Event>, n: nat, strikes: int)
    requires strikes > 0 && Clock(es) && n <= |es| && !Run(es[..n], strikes).stopped
    requires forall i :: n <= i < |es| && es[i].Look? ==> PokedBefore(es, i)
    ensures !Run(es, strikes).stopped
    ensures SomeLook(es, n) ==> Run(es, strikes).alone == 0
  {
    hide Run, Broken, Abandoned, Chain, PokedBefore, SomeLook, Stored;
    StopsIffAbandoned(es[..n], strikes);
    StopsIffAbandoned(es, strikes);
    forall i | n <= i < |es| && es[i].Look? ensures Chain(es[..i], es[i].at) {
      PokedChains(es, i);
    }
    ChainedCount(es, n, strikes);
  }

  // ---------------------------------------------------------- without clients

  ghost predicate AllLooks(looks: seq<Event>)
  {
    forall i :: 0 <= i < |looks| ==> looks[i].Look?
  }

  lemma LastPokeBefore(es: seq<Event>, looks: seq<Event>, all: seq<Event>)
    requires all == es + looks && Clock(all) && looks != []
    ensures LastPoke(es) <= looks[0].at
  {
    assert all[|es|] == looks[0];
    forall i | 0 <= i < |es| ensures 0 <= es[i].at <= looks[0].at {
      assert all[i] == es[i];
    }
    assert Clock(es) by {
      forall i, j | 0 <= i < j < |es| ensures es[i].at <= es[j].at {
        assert all[i] == es[i] && all[j] == es[j];
      }
    }
    LastPokeBound(es, looks[0].at);
  }

  /** After the last poke every look but possibly the first is unattended. */
  lemma {:induction false} LonelyCount(es: seq<Event>, looks: seq<Event>)
    requires Clock(es + looks) && Spaced(es + looks) && looks != [] && AllLooks(looks)
    ensures Unattended(es + looks)
      == if Attended(es, looks[0].at) then |looks| - 1 else Unattended(es) + |looks|
    ensures LastPoke(es + looks) == LastPoke(es)
    decreases |looks|
  {
    var all, m := es + looks, |looks| - 1;
    assert all[..|all| - 1] == es + looks[..m];
    assert all[|es|] == looks[0] && all[|all| - 1] == looks[m];
    if m == 0 {
      assert es + looks[..0] == es;
    } else {
      Earlier(all);
      LonelyCount(es, looks[..m]);
      LastPokeBefore(es, looks, all);
    }
  }

  /** Left alone, the thread stops after at most one look more than the strikes. */
  lemma LonelyStops(es: seq<Event>, looks: seq<Event>, strikes: int)
    requires strikes > 0 && |looks| == strikes + 1 && AllLooks(looks)
    requires Clock(es + looks) && Spaced(es + looks)
    ensures Run(es + looks, strikes).stopped
  {
    LonelyCount(es, looks);
    StopsIffDeserted(es + looks, strikes);
  }

  /** A segment that no client ever pokes: every look is a strike, however close the looks
      are, if the clock is already past the first period. */
  lemma {:induction false} NeverPoked(looks: seq<Event>, strikes: int)
    requires strikes > 0 && Clock(looks) && AllLooks(looks) && (looks != [] ==> looks[0].at > PERIOD)
    ensures Broken(looks) == |looks| && (Run(looks, strikes).stopped <==> |looks| >= strikes)
  {
    StopsIffAbandoned(looks, strikes);
    if looks != [] {
      var rest := looks[..|looks| - 1];
      Earlier(looks);
      NeverPoked(rest, strikes);
      StopsIffAbandoned(rest, strikes);
      if rest != [] { assert !Chain(rest[..|rest| - 1], rest[|rest| - 1].at); }
    }
  }

  /** Without strikes to give the thread never stops, whatever the clock does. */
  lemma {:induction false} NoStrikesNoStop(es: seq<Event>, strikes: int)
    requires strikes <= 0
    ensures !Run(es, strikes).stopped
  {
    if es != [] { NoStrikesNoStop(es[..|es| - 1], strikes); }
  }

  /** A client pokes between the thread's reading of the clock and its comparison, so that the
      stored time is after the one that the thread has read: the look counts no strike and
      takes none back, does not stop the thread, and overwrites the poke with its own time. */
  lemma LateLook(es: seq<Event>, at: int, now: int, strikes: int)
    requires strikes > 0 && !Run(es, strikes).stopped && now < at
    ensures Run(es + [Poke(at)] + [Look(now)], strikes) == State(now, Run(es, strikes).alone, false)
  {
    assert (es + [Poke(at)])[..|es|] == es;
    assert (es + [Poke(at)] + [Look(now)])[..|es| + 1] == es + [Poke(at)];
  }

  /** With any clock, a look counts a strike exactly when it reads a time more than five seconds
      after the stored one, and stops the thread exactly when that strike completes them. */
  lemma StrikeIff(es: seq<Event>, now: int, strikes: int)
    requires strikes > 0 && !Run(es, strikes).stopped
    ensures var s, r := Run(es, strikes), Run(es + [Look(now)], strikes);
      && (now - s.poke > 5_000_000 ==> r == State(s.poke, s.alone + 1, s.alone + 1 >= strikes))
      && (0 <= now - s.poke <= 5_000_000 ==> r == State(now, 0, false))
      && (now < s.poke ==> r == State(now, s.alone, false))
  {
    assert (es + [Look(now)])[..|es|] == es;
  }

  /** One poke, then looks exactly one period apart. */
  ghost function Ticks(t: int, n: nat): (es: seq<Event>)
    ensures |es| == n + 1 && es[0] == Poke(t) && forall i :: 1 <= i <= n ==> es[i] == Look(t + i * PERIOD)
  {
    if n == 0 then [Poke(t)] else Ticks(t, n - 1) + [Look(t + n * PERIOD)]
  }

  /** After a single poke, looks exactly one period apart keep the thread going for ever on
      its own stores. */
  lemma {:induction false} KeepsItselfGoing(t: int, n: nat, strikes: int)
    requires strikes > 0
    ensures var s := Run(Ticks(t, n), strikes);
      !s.stopped && s.alone == 0 && s.poke == t + n * PERIOD
  {
    if n > 0 {
      KeepsItselfGoing(t, n - 1, strikes);
      assert Ticks(t, n)[..n] == Ticks(t, n - 1);
    } else {
      assert Ticks(t, 0)[..0] == [];
    }
  }

  // ---------------------------------------------------------------- the thread

  class ServiceThread {
    var pokeUs: int
    var allalone: nat

    /** The test at the head of each pass; the caller leaves the loop when it says so. */
    method Pass(now: int, strikes: int) returns (stop: bool)
      modifies this
      ensures State(pokeUs, allalone, stop) == Observe(State(old(pokeUs), old(allalone), false), now, strikes)
    {
      stop := false;
      if strikes > 0 {
        if now >= pokeUs {
          if now - pokeUs <= PERIOD {
            pokeUs := now;
            allalone := 0;
          } else {
            allalone := allalone + 1;
            stop := allalone >= strikes;
          }
        } else {
          pokeUs := now;
        }
      }
    }
  }
}
