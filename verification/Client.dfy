/** The client's handles in src/xinput_gamepad.c: the mapped segment, its descriptor and
    the message queue, over connects, disconnects, probes and failed attempts.  What the
    system calls answer, and what is learnt about the owner, are parameters. */
module Client {
  import opened Wrappers

  const REPROBE_PERIOD: int := 1_000_000

  datatype OpenAnswer = Opened | Missing | Denied

  /** The answers of one attempt to connect: shm_open, then mmap, then mq_open. */
  datatype Answers = Answers(segment: OpenAnswer, maps: bool, queue: bool)

  datatype Ret = Success | NoEntry | NoQueue | Failed

  function RetOf(a: Answers): Ret
  {
    if a.segment == Missing then NoEntry
    else if a.segment == Denied || !a.maps then Failed
    else if !a.queue then NoQueue
    else Success
  }

  // the owner field: zero while unset, -1 once broken
  const UNSET: int := 0
  const BROKEN: int := -1
  const OWNER_READS: nat := 6

  /** What a check of the owner meets: whether this process is itself the service, what the
      owner field shows at each read, and which processes can be signalled. */
  datatype Look = Look(self: bool, fields: seq<int>, live: set<int>)

  ghost predicate Complete(look: Look)
  {
    |look.fields| == 6
  }

  /** The owner the reads settle on: the first that is set, or none. */
  function Owner(fields: seq<int>): int
  {
    if fields == [] then UNSET
    else if fields[0] != UNSET then fields[0]
    else Owner(fields[1..])
  }

  /** A set, unbroken owner that can be signalled. */
  predicate OwnerLives(look: Look)
  {
    var pid := Owner(look.fields);
    pid != UNSET && pid != BROKEN && pid in look.live
  }

  /** Some read meets the id of a process that can be signalled, neither zero nor minus one, and
      every read before it met zero. */
  ghost predicate FindsLiveOwner(look: Look)
  {
    exists i :: 0 <= i < |look.fields| && look.fields[i] != 0 && look.fields[i] != -1
                && look.fields[i] in look.live && ZeroBelow(look.fields, i)
  }

  ghost predicate ZeroBelow(fields: seq<int>, n: nat)
    requires n <= |fields|
  {
    forall i :: 0 <= i < n ==> fields[i] == 0
  }

  lemma {:induction false} OwnerIs(fields: seq<int>) returns (i: nat)
    ensures i <= |fields| && ZeroBelow(fields, i)
    ensures Owner(fields) == if i < |fields| then fields[i] else 0
    ensures i < |fields| ==> fields[i] != 0
  {
    if fields == [] || fields[0] != 0 {
      i := 0;
    } else {
      i := OwnerIs(fields[1..]);
      assert forall k :: 1 <= k <= i ==> fields[1..][k - 1] == fields[k];
      i := i + 1;
    }
  }

  /** The owner that the reads settle on is live exactly when such a read exists; with fields
      that are all zero or minus one it never is, whatever can be signalled. */
  lemma OwnerLivesIff(look: Look)
    ensures OwnerLives(look) <==> FindsLiveOwner(look)
    ensures (forall i :: 0 <= i < |look.fields| ==> look.fields[i] == 0 || look.fields[i] == -1) ==> !OwnerLives(look)
  {
    var i := OwnerIs(look.fields);
  }

  /** One pass of the initialisation loop: a connect and a check of the owner. */
  datatype Attempt = Attempt(answers: Answers, look: Look)

  ghost predicate AllComplete(script: seq<Attempt>)
  {
    forall i :: 0 <= i < |script| ==> Complete(script[i].look)
  }

  /** The pass ends the loop. */
  predicate Ends(a: Attempt)
  {
    RetOf(a.answers) == Success && (a.look.self || OwnerLives(a.look))
  }

  lemma EndsIff(a: Attempt)
    ensures Ends(a) <==>
      a.answers == Answers(Opened, true, true) && (a.look.self || FindsLiveOwner(a.look))
  {
    OwnerLivesIff(a.look);
    hide FindsLiveOwner, OwnerLives;
  }

  function FirstEnd(script: seq<Attempt>): (n: nat)
    ensures n <= |script| && (n < |script| ==> Ends(script[n]))
    ensures forall i :: 0 <= i < n ==> !Ends(script[i])
  {
    if script == [] then 0 else if Ends(script[0]) then 0 else 1 + FirstEnd(script[1..])
  }

  class Process {
    // the statics
    var shared: Option<nat>
    var fd: Option<nat>
    var mq: Option<nat>
    var initDone: bool
    var lastProbe: int

    // what the kernel holds for the process
    ghost var mappings: set<nat>
    ghost var descriptors: set<nat>
    ghost var queues: set<nat>
    var names: nat

    ghost function Own(handle: Option<nat>): set<nat>
    {
      if handle.Some? then {handle.value} else {}
    }

    /** Every open handle is the one in its static and every static is open; the segment
        and its descriptor come together, and a queue only with a segment. */
    ghost predicate Balanced()
      reads this
    {
      && mappings == Own(shared) && descriptors == Own(fd) && queues == Own(mq)
      && (shared.Some? <==> fd.Some?) && (mq.Some? ==> shared.Some?)
      && (shared.Some? ==> shared.value < names)
      && (fd.Some? ==> fd.value < names) && (mq.Some? ==> mq.value < names)
    }

    /** Between calls of the library: all three handles are open or none is, and none
        before initialisation. */
    ghost predicate Valid()
      reads this
    {
      Balanced() && (Connected() || Disconnected()) && (!initDone ==> Disconnected())
    }

    ghost predicate Connected()
      reads this
    {
      shared.Some? && fd.Some? && mq.Some?
    }

    ghost predicate Disconnected()
      reads this
    {
      shared.None? && fd.None? && mq.None? && mappings == {} == descriptors && queues == {}
    }

    constructor ()
      ensures Valid() && Disconnected() && !initDone && lastProbe == 0
    {
      shared, fd, mq, initDone, lastProbe := None, None, None, false, 0;
      mappings, descriptors, queues, names := {}, {}, {}, 0;
    }

    method QueueOpen(answer: bool) returns (ok: bool)
      requires Balanced() && shared.Some? && mq.None?
      modifies this`mq, this`queues, this`names
      ensures Balanced() && ok == answer && mq.Some? == answer
    {
      ok := answer;
      if answer {
        mq := Some(names);
        queues := queues + {names};
        names := names + 1;
      }
    }

    method QueueClose()
      requires queues == Own(mq)
      modifies this`mq, this`queues
      ensures mq.None? && queues == {}
    {
      if mq.Some? {
        queues := queues - {mq.value};
        mq := None;
      }
    }

    method Disconnect()
      requires Balanced()
      modifies this`shared, this`fd, this`mq, this`mappings, this`descriptors, this`queues
      ensures Balanced() && Disconnected()
    {
      QueueClose();
      if shared.Some? {
        mappings := mappings - {shared.value};
        shared := None;
        descriptors := descriptors - {fd.value};
        fd := None;
      }
    }

    /** A successful connect leaves all three handles open, any other leaves none. */
    method Connect(a: Answers) returns (ret: Ret)
      requires Balanced() && Disconnected()
      modifies this`shared, this`fd, this`mq, this`mappings, this`descriptors, this`queues, this`names
      ensures Balanced() && ret == RetOf(a)
      ensures ret == Success <==> a.segment == Opened && a.maps && a.queue
      ensures ret == NoEntry <==> a.segment == Missing
      ensures ret == NoQueue <==> a.segment == Opened && a.maps && !a.queue
      ensures if ret == Success then Connected() else Disconnected()
    {
      if a.segment != Opened {
        return if a.segment == Missing then NoEntry else Failed;
      }
      var file := names;
      descriptors := descriptors + {file};
      names := names + 1;
      if !a.maps {
        descriptors := descriptors - {file};
        return Failed;
      }
      mappings := mappings + {names};
      shared, fd := Some(names), Some(file);
      names := names + 1;
      var ok := QueueOpen(a.queue);
      if !ok {
        Disconnect();
        return NoQueue;
      }
      return Success;
    }

    /** The source dereferences the segment without a test when the process is itself the
        service: `fault` says that it is not mapped.  Otherwise the owner field is read up
        to six times, until it is set. */
    method IsAlive(look: Look) returns (alive: bool, fault: bool)
      requires Complete(look)
      ensures fault <==> look.self && shared.None?
      ensures !fault ==> (alive <==> look.self || (shared.Some? && OwnerLives(look)))
      ensures !look.self ==> (alive <==> shared.Some? && FindsLiveOwner(look))
    {
      OwnerLivesIff(look);
      hide FindsLiveOwner;
      if look.self {
        return true, shared.None?;
      }
      if shared.None? {
        return false, false;
      }
      var i, pid := 0, UNSET;
      while i < OWNER_READS
        invariant i <= OWNER_READS && pid == UNSET && Owner(look.fields) == Owner(look.fields[i..])
      {
        assert look.fields[i..][0] == look.fields[i] && look.fields[i..][1..] == look.fields[i + 1..];
        pid := look.fields[i];
        if pid != UNSET {
          break;
        }
        i := i + 1;
      }
      var dead := pid == UNSET || pid == BROKEN;
      if !dead {
        dead := pid !in look.live;
      }
      return !dead, false;
    }

    /** The initialisation loop, for as many passes as the script has: it ends connected at
        the first attempt that finds a live owner, and every other attempt leaves nothing
        open. */
    method Init(script: seq<Attempt>) returns (done: bool)
      requires Valid() && AllComplete(script)
      modifies this`shared, this`fd, this`mq, this`mappings, this`descriptors, this`queues, this`names, this`initDone
      ensures Valid() && initDone
      ensures old(initDone) ==> done && shared == old(shared) && fd == old(fd) && mq == old(mq)
      ensures !old(initDone) ==> (done <==> FirstEnd(script) < |script|)
      ensures !old(initDone) ==> if done then Connected() else Disconnected()
    {
      if initDone {
        return true;
      }
      initDone := true;
      var i := 0;
      while i < |script|
        invariant i <= FirstEnd(script) && Balanced() && Disconnected() && initDone
      {
        var ret := Connect(script[i].answers);
        if ret == Success {
          var alive, fault := IsAlive(script[i].look);
          assert !fault;
          if alive {
            return true;
          }
          Disconnect();
        }
        i := i + 1;
      }
      return false;
    }

    /** One call of the library: at most once a second the owner is checked, and a dead one
        is replaced by connecting again. */
    method Probe(now: int, script: seq<Attempt>, next: Attempt) returns (done: bool, fault: bool)
      requires Valid() && AllComplete(script) && Complete(next.look)
      modifies this
      ensures Valid() && initDone && (done <==> old(initDone) || FirstEnd(script) < |script|)
      ensures fault <==> done && now - old(lastProbe) > 1_000_000 && next.look.self && old(initDone && shared.None?)
      ensures done && (fault || now - old(lastProbe) <= 1_000_000)
        ==> lastProbe == old(lastProbe) && (Connected() <==> !old(initDone) || old(shared.Some?))
      ensures done && !fault && now - old(lastProbe) > 1_000_000
        ==> lastProbe == now && (Connected() <==> next.look.self || RetOf(next.answers) == Success
                                                  || ((!old(initDone) || old(shared.Some?)) && OwnerLives(next.look)))
    {
      done := Init(script);
      fault := false;
      if !done {
        return;
      }
      if now - lastProbe > REPROBE_PERIOD {
        var alive;
        alive, fault := IsAlive(next.look);
        if fault {
          return;
        }
        if !alive {
          Disconnect();
          var ret := Connect(next.answers);
        }
        lastProbe := now;
      }
    }

    method Finalize()
      requires Valid()
      modifies this
      ensures Valid() && !initDone
      ensures old(initDone) ==> Disconnected()
      ensures !old(initDone) ==> shared == old(shared) && fd == old(fd) && mq == old(mq)
    {
      if initDone {
        initDone := false;
        Disconnect();
      }
    }
  }

  /** A run that ends in the unguarded access: a first probe connects, finds the owner dead
      and cannot connect again; by the second one this process has become the service. */
  method ProbesUntilFault() returns (fault: bool)
    ensures fault
  {
    var unset := [UNSET, UNSET, UNSET, UNSET, UNSET, UNSET];
    var first := Attempt(Answers(Opened, true, true), Look(false, [7, 7, 7, 7, 7, 7], {7}));
    var gone := Attempt(Answers(Missing, false, false), Look(false, [7, 7, 7, 7, 7, 7], {}));
    var self := Attempt(Answers(Missing, false, false), Look(true, unset, {}));
    assert Owner(unset[6..]) == Owner(unset[5..]) == Owner(unset[4..]) == Owner(unset[3..]) == UNSET;
    assert Owner(unset[2..]) == Owner(unset[1..]) == Owner(unset) == UNSET;
    assert Owner(first.look.fields) == 7 && Owner(gone.look.fields) == 7;
    var client := new Process();
    var done;
    done, fault := client.Probe(2_000_000, [first], gone);
    done, fault := client.Probe(4_000_000, [first], self);
  }
}
