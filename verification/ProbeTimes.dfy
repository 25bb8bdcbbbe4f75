/** When probes scan the directory, on the numbers that the clock shows. */
module ProbeTimes {
  import opened XInput
  import opened Wrappers
  import opened Slots

  /** What a scan leaves: the table with the directory's new devices, and the time of the probe. */
  ghost predicate HasScanned(s: State, now: nat, dir: Option<seq<DirEntry>>, r: (State, set<nat>))
    requires Sized(s.table) && (dir.Some? ==> AllProbeable(dir.value))
  {
    && r.0.epoch == now
    && if dir.Some? then (r.0.table, r.1) == Scan(s.table, dir.value) else (r.0.table, r.1) == (s.table, {})
  }

  /** A probe five seconds or more after the last scan scans.  A smaller difference changes
      nothing and announces nothing.  A clock that has gone back scans, unless it went back so
      far that the 64-bit difference is small again. */
  lemma ProbeScansIff(s: State, now: nat, dir: Option<seq<DirEntry>>)
    requires Sized(s.table) && OpOk(Probe(now, dir)) && s.epoch < 0x1_0000_0000_0000_0000
    ensures var r := StepOp(s, Probe(now, dir));
      if now - s.epoch >= 5_000_000 || 5_000_000 - 0x1_0000_0000_0000_0000 <= now - s.epoch < 0
      then HasScanned(s, now, dir, r)
      else r == (s, {})
  {
    hide Scan;
    Difference(now, s.epoch);
  }

  lemma Difference(now: nat, epoch: nat)
    requires now < 0x1_0000_0000_0000_0000 && epoch < 0x1_0000_0000_0000_0000
    ensures Due(now, epoch) <==>
      now - epoch >= 5_000_000 || 5_000_000 - 0x1_0000_0000_0000_0000 <= now - epoch < 0
  {
    if now < epoch { assert (now - epoch) % WORD64 == now - epoch + WORD64; }
  }

  // ------------------------------------------------------- over whole runs

  ghost predicate AllOk(ops: seq<Op>)
  {
    forall i :: 0 <= i < |ops| ==> OpOk(ops[i])
  }

  /** The clock that the probes read does not go back. */
  ghost predicate Clock(ops: seq<Op>)
  {
    forall i, j :: 0 <= i < j < |ops| && ops[i].Probe? && ops[j].Probe? ==> ops[i].now <= ops[j].now
  }

  /** The probe at position `i` stores another time than was stored. */
  ghost predicate ScansAt(ops: seq<Op>, i: nat)
    requires AllOk(ops) && i < |ops|
  {
    ops[i].Probe? && RunOps(ops[..i]).epoch != ops[i].now && RunOps(ops[..i + 1]).epoch == ops[i].now
  }

  /** The stored time is that of the last probe that scanned, or zero. */
  ghost predicate StoredTime(ops: seq<Op>)
    requires AllOk(ops)
  {
    && (RunOps(ops).epoch == 0 || exists i :: 0 <= i < |ops| && ScansAt(ops, i) && ops[i].now == RunOps(ops).epoch)
    && (forall i :: 0 <= i < |ops| && ScansAt(ops, i) ==> ops[i].now <= RunOps(ops).epoch)
  }

  lemma OneMore(ops: seq<Op>)
    requires AllOk(ops) && ops != []
    ensures RunOps(ops) == StepOp(RunOps(ops[..|ops| - 1]), ops[|ops| - 1]).0
  {}

  lemma StepAt(ops: seq<Op>, i: nat)
    requires AllOk(ops) && i < |ops|
    ensures RunOps(ops[..i + 1]) == StepOp(RunOps(ops[..i]), ops[i]).0
  {
    assert ops[..i + 1][..i] == ops[..i];
    OneMore(ops[..i + 1]);
  }

  lemma EarlierScans(ops: seq<Op>, n: nat, i: nat)
    requires AllOk(ops) && i < n <= |ops|
    ensures ScansAt(ops[..n], i) <==> ScansAt(ops, i)
  {
    hide RunOps;
    assert ops[..n][..i] == ops[..i] && ops[..n][..i + 1] == ops[..i + 1];
  }

  lemma EpochBound(ops: seq<Op>, now: nat)
    requires AllOk(ops) && StoredTime(ops)
    requires forall i :: 0 <= i < |ops| && ops[i].Probe? ==> ops[i].now <= now
    ensures RunOps(ops).epoch <= now
  {
    hide RunOps;
  }

  lemma {:induction false} StoredTimes(ops: seq<Op>)
    requires AllOk(ops) && Clock(ops)
    ensures StoredTime(ops)
  {
    hide RunOps, StepOp, ScansAt, Due;
    if ops == [] {
      assert RunOps(ops).epoch == 0 by { NothingStored(); }
    } else {
      var n := |ops| - 1;
      StoredTimes(ops[..n]);
      StoredNext(ops);
    }
  }

  lemma NothingStored()
    ensures RunOps([]).epoch == 0
  {}

  /** The last operation either scans, and stores its time, or leaves the time alone. */
  lemma LastScans(ops: seq<Op>)
    requires AllOk(ops) && ops != []
    ensures var n := |ops| - 1;
      if ScansAt(ops, n) then RunOps(ops).epoch == ops[n].now
      else RunOps(ops).epoch == RunOps(ops[..n]).epoch
  {
    var n := |ops| - 1;
    assert ops[..n + 1] == ops;
    OneMore(ops);
    hide RunOps, Scan, Due;
  }

  lemma ScanIsProbe(ops: seq<Op>, i: nat)
    requires AllOk(ops) && i < |ops| && ScansAt(ops, i)
    ensures ops[i].Probe?
  {}

  lemma StoredNext(ops: seq<Op>)
    requires AllOk(ops) && Clock(ops) && ops != [] && StoredTime(ops[..|ops| - 1])
    ensures StoredTime(ops)
  {
    hide RunOps, ScansAt, StepOp, Scan, Due;
    var n := |ops| - 1;
    var rest := ops[..n];
    LastScans(ops);
    forall i | 0 <= i < n && ScansAt(rest, i) ensures ScansAt(ops, i) && ops[i].Probe? {
      EarlierScans(ops, n, i);
      ScanIsProbe(ops, i);
    }
    forall i | 0 <= i < n && ScansAt(ops, i) ensures ScansAt(rest, i) && ops[i].Probe? {
      EarlierScans(ops, n, i);
      ScanIsProbe(ops, i);
    }
    if ScansAt(ops, n) {
      ScanIsProbe(ops, n);
      EpochBound(rest, ops[n].now);
    } else if RunOps(rest).epoch != 0 {
      var i :| 0 <= i < n && ScansAt(rest, i) && rest[i].now == RunOps(rest).epoch;
      assert ScansAt(ops, i) && ops[i].now == RunOps(ops).epoch;
    }
  }

  /** Over every run in which the clock does not go back, a probe scans exactly when the clock
      shows at least five seconds and every scanning probe before it is at least five seconds
      ago. */
  lemma ScansIff(ops: seq<Op>, j: nat)
    requires AllOk(ops) && Clock(ops) && j < |ops| && ops[j].Probe?
    ensures ScansAt(ops, j) <==>
      ops[j].now >= 5_000_000 && forall i :: 0 <= i < j && ScansAt(ops, i) ==> ops[j].now - ops[i].now >= 5_000_000
  {
    var rest := ops[..j];
    StoredTimes(rest);
    EpochBound(rest, ops[j].now);
    StepAt(ops, j);
    ProbeScansIff(RunOps(rest), ops[j].now, ops[j].dir);
    forall i | 0 <= i < j ensures ScansAt(rest, i) <==> ScansAt(ops, i) { EarlierScans(ops, j, i); }
    hide RunOps, StepOp, Scan;
    assert ScansAt(ops, j) <==> ops[j].now - RunOps(rest).epoch >= 5_000_000;
    hide ScansAt;
    if RunOps(rest).epoch != 0 {
      var i :| 0 <= i < j && ScansAt(rest, i) && rest[i].now == RunOps(rest).epoch;
      assert ScansAt(ops, i);
    }
  }

  /** What a probe of a run answers: the directory's devices when it scans, nothing when not. */
  lemma ScansAnswer(ops: seq<Op>, j: nat)
    requires AllOk(ops) && Clock(ops) && j < |ops| && ops[j].Probe?
    ensures var s, r := RunOps(ops[..j]), StepOp(RunOps(ops[..j]), ops[j]);
      if ScansAt(ops, j) then HasScanned(s, ops[j].now, ops[j].dir, r) else r == (s, {})
  {
    var rest := ops[..j];
    StoredTimes(rest);
    EpochBound(rest, ops[j].now);
    StepAt(ops, j);
    ProbeScansIff(RunOps(rest), ops[j].now, ops[j].dir);
    hide RunOps, StepOp, Scan;
  }
}
