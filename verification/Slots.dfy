/** The slot table of src/linux_evdev/xinput_linux_evdev.c: which device sits in which of
    the four user indices, over probes and closes. */
module Slots {
  import opened XInput
  import opened Wrappers
  import opened Bitmaps
  import opened Allocation
  import Devices
  import DeviceRun
  import Gamepad
  import Generic
  import Translator

  const WORD64: nat := 0x1_0000_0000_0000_0000
  const NO_INODE: nat := WORD64 - 1
  const PROBE_PERIOD: nat := 5_000_000

  type Inode = d: nat | d < WORD64

  /** One directory entry and what opening it found; the bitmaps are those of the device. */
  datatype DirEntry = DirEntry(joystick: bool, inode: Inode, opens: bool, candidate: bool, grabbed: bool,
                               evKey: seq<bv8>, evAbs: seq<bv8>)

  /** The bitmaps have the sizes of the probe structure. */
  ghost predicate Probeable(e: DirEntry)
  {
    Generic.Probed(e.evKey, e.evAbs)
  }

  ghost predicate AllProbeable(dir: seq<DirEntry>)
  {
    forall i :: 0 <= i < |dir| ==> Probeable(dir[i])
  }

  /** The device is put to the driver: it can be opened, is a candidate and can be grabbed. */
  ghost predicate Examined(e: DirEntry)
  {
    e.joystick && e.opens && e.candidate && e.grabbed
  }

  /** The driver takes the device. */
  ghost predicate Admits(e: DirEntry)
    requires Probeable(e)
  {
    Examined(e) && Verdict(Flags(e.evKey), Flags(e.evAbs)) == Accepted
  }

  /** The driver's axis scan leaves the device's bitmap. */
  ghost predicate Escapes(e: DirEntry)
    requires Probeable(e)
  {
    Examined(e) && Verdict(Flags(e.evKey), Flags(e.evAbs)) == Overrun
  }

  // ---------------------------------------------------------------- the table

  datatype Table = Table(used: seq<bool>, inodes: seq<Inode>)

  ghost predicate Sized(t: Table)
  {
    |t.used| == XUSER_MAX_COUNT == |t.inodes|
  }

  /** What is compared with the slots: the inode passed as an int and widened back. */
  function Converted(d: Inode): Inode
  {
    var low := d % 0x1_0000_0000;
    if low < 0x8000_0000 then low else WORD64 - 0x1_0000_0000 + low
  }

  predicate FitsInt(d: Inode)
  {
    d < 0x8000_0000 || d >= WORD64 - 0x8000_0000
  }

  lemma ConvertedIff(d: Inode)
    ensures Converted(d) == d <==> FitsInt(d)
  {}

  /** The conversion keeps the low 32 bits and repeats the highest of them above. */
  lemma ConvertedInt(d: Inode)
    ensures Converted(d) % 0x1_0000_0000 == d % 0x1_0000_0000
    ensures Converted(d) < 0x8000_0000 || Converted(d) >= 0xFFFF_FFFF_8000_0000
  {
    var low := d % 0x1_0000_0000;
    assert WORD64 - 0x1_0000_0000 + low == 0x1_0000_0000 * 0xFFFF_FFFF + low;
  }

  ghost predicate InUse(t: Table, d: Inode)
  {
    exists i :: 0 <= i < |t.inodes| && t.inodes[i] == Converted(d)
  }

  /** The first free slot, or the slot count. */
  function NextFree(used: seq<bool>, i: nat): (slot: nat)
    requires i <= |used|
    ensures i <= slot <= |used|
    ensures slot < |used| ==> !used[slot]
    ensures forall k :: i <= k < slot ==> used[k]
    decreases |used| - i
  {
    if i == |used| || !used[i] then i else NextFree(used, i + 1)
  }

  function Occupy(t: Table, slot: nat, d: Inode): Table
    requires slot < |t.used| == |t.inodes|
  {
    Table(t.used[slot := true], t.inodes[slot := d])
  }

  ghost predicate Takes(t: Table, e: DirEntry)
    requires Sized(t) && Probeable(e)
  {
    Admits(e) && !InUse(t, e.inode)
  }

  ghost function Next(t: Table, e: DirEntry): (next: Table)
    requires Sized(t) && Probeable(e) && NextFree(t.used, 0) < XUSER_MAX_COUNT
    ensures Sized(next)
  {
    if Takes(t, e) then Occupy(t, NextFree(t.used, 0), e.inode) else t
  }

  /** The scan of the directory is over: no slot is free, no entry is left, or the next
      device makes the driver leave its bitmap. */
  ghost predicate ScanOver(t: Table, dir: seq<DirEntry>)
    requires Sized(t) && AllProbeable(dir)
  {
    NextFree(t.used, 0) == XUSER_MAX_COUNT || dir == [] || (Escapes(dir[0]) && !InUse(t, dir[0].inode))
  }

  /** Reading a directory into the free slots, up to a device with which the driver leaves
      its bitmap. */
  ghost function Scan(t: Table, dir: seq<DirEntry>): (r: (Table, set<nat>))
    requires Sized(t) && AllProbeable(dir)
    ensures Sized(r.0)
    decreases |dir|
  {
    var slot := NextFree(t.used, 0);
    if ScanOver(t, dir) then (t, {})
    else
      var (last, mask) := Scan(Next(t, dir[0]), dir[1..]);
      (last, if Takes(t, dir[0]) then mask + {slot} else mask)
  }

  /** The scan meets a device with which the driver leaves its bitmap: what the source does
      from there on is undefined. */
  ghost predicate Undefined(t: Table, dir: seq<DirEntry>)
    requires Sized(t) && AllProbeable(dir)
    decreases |dir|
  {
    && NextFree(t.used, 0) < XUSER_MAX_COUNT && dir != []
    && (ScanOver(t, dir) || Undefined(Next(t, dir[0]), dir[1..]))
  }

  function Vacate(t: Table, slot: nat): Table
    requires Sized(t) && slot < XUSER_MAX_COUNT
  {
    Table(t.used[slot := false], t.inodes[slot := NO_INODE])
  }

  /** The table once initialised. */
  const INITIAL: Table := Table([false, false, false, false], [NO_INODE, NO_INODE, NO_INODE, NO_INODE])

  // --------------------------------------------------------- one probe's law

  ghost function Fresh(before: Table, after: Table): set<nat>
    requires Sized(before) && Sized(after)
  {
    set i: nat | i < XUSER_MAX_COUNT && after.used[i] && !before.used[i]
  }

  /** Occupied slots are kept with their device, and only `mask` changes. */
  ghost predicate Grows(before: Table, after: Table, mask: set<nat>)
    requires Sized(before) && Sized(after)
  {
    && mask == Fresh(before, after)
    && (forall i :: 0 <= i < XUSER_MAX_COUNT && before.used[i] ==> after.used[i])
    && (forall i :: 0 <= i < XUSER_MAX_COUNT && i !in mask ==> after.inodes[i] == before.inodes[i])
  }

  lemma GrowsFurther(t: Table, slot: nat, d: Inode, last: Table, mask: set<nat>)
    requires Sized(t) && Sized(last) && slot < XUSER_MAX_COUNT && !t.used[slot] && Grows(Occupy(t, slot, d), last, mask)
    ensures Grows(t, last, mask + {slot}) && last.inodes[slot] == d
  {
    var next := Occupy(t, slot, d);
    assert next.used[slot] && slot !in mask;
    assert forall i :: 0 <= i < XUSER_MAX_COUNT && i != slot ==> next.used[i] == t.used[i];
  }

  lemma NothingGrows(t: Table)
    requires Sized(t)
    ensures Grows(t, t, {})
  {}

  /** The mask holds exactly the slots that became occupied; occupied slots are kept with
      their device. */
  lemma {:induction false} MaskIsFresh(t: Table, dir: seq<DirEntry>)
    requires Sized(t) && AllProbeable(dir)
    ensures Grows(t, Scan(t, dir).0, Scan(t, dir).1)
    decreases |dir|
  {
    hide Takes, Grows, Escapes, InUse;
    var slot := NextFree(t.used, 0);
    if ScanOver(t, dir) {
      NothingGrows(t);
    } else {
      MaskIsFresh(Next(t, dir[0]), dir[1..]);
      var (last, mask) := Scan(Next(t, dir[0]), dir[1..]);
      if Takes(t, dir[0]) { GrowsFurther(t, slot, dir[0].inode, last, mask); }
    }
  }

  /** Occupied slots hold different devices. */
  ghost predicate Distinct(t: Table)
    requires Sized(t)
  {
    forall i, j :: 0 <= i < j < XUSER_MAX_COUNT && t.used[i] && t.used[j] ==> t.inodes[i] != t.inodes[j]
  }

  /** Free slots hold no inode: true after initialisation. */
  ghost predicate Vacant(t: Table)
    requires Sized(t)
  {
    forall i :: 0 <= i < XUSER_MAX_COUNT && !t.used[i] ==> t.inodes[i] == NO_INODE
  }

  ghost predicate AllFit(dir: seq<DirEntry>)
  {
    forall i :: 0 <= i < |dir| ==> FitsInt(dir[i].inode)
  }

  lemma NextDistinct(t: Table, e: DirEntry)
    requires Sized(t) && Probeable(e) && NextFree(t.used, 0) < XUSER_MAX_COUNT && FitsInt(e.inode) && Distinct(t)
    ensures Distinct(Next(t, e))
  {
    ConvertedIff(e.inode);
    hide Admits, Converted, FitsInt;
  }

  lemma {:induction false} ScanDistinct(t: Table, dir: seq<DirEntry>)
    requires Sized(t) && AllProbeable(dir) && AllFit(dir) && Distinct(t)
    ensures Distinct(Scan(t, dir).0)
    decreases |dir|
  {
    hide Takes, Next, FitsInt, Distinct;
    if NextFree(t.used, 0) < XUSER_MAX_COUNT && dir != [] {
      assert FitsInt(dir[0].inode);
      NextDistinct(t, dir[0]);
      ScanDistinct(Next(t, dir[0]), dir[1..]);
    }
  }

  /** Some entry of the directory has the inode: a joystick that can be opened, is a candidate,
      could be grabbed, and is accepted by the allocator. */
  ghost predicate Offered(dir: seq<DirEntry>, d: Inode)
    requires AllProbeable(dir)
  {
    exists k :: 0 <= k < |dir| && Offers(dir[k]) && dir[k].inode == d
  }

  ghost predicate Offers(e: DirEntry)
    requires Probeable(e)
  {
    && e.joystick && e.opens && e.candidate && e.grabbed
    && Verdict(Flags(e.evKey), Flags(e.evAbs)) == Accepted
  }

  lemma OffersIff(e: DirEntry)
    requires Probeable(e)
    ensures Offers(e) <==> Admits(e)
  {
    hide Verdict, Flags;
  }

  lemma OfferedTail(dir: seq<DirEntry>, d: Inode)
    requires AllProbeable(dir) && dir != [] && Offered(dir[1..], d)
    ensures Offered(dir, d)
  {
    hide Offers;
    var k :| 0 <= k < |dir[1..]| && Offers(dir[1..][k]) && dir[1..][k].inode == d;
    assert Offers(dir[k + 1]);
  }

  lemma OfferedFirst(dir: seq<DirEntry>)
    requires AllProbeable(dir) && dir != [] && Admits(dir[0])
    ensures Offered(dir, dir[0].inode)
  {
    OffersIff(dir[0]);
    hide Admits, Offers;
  }

  /** Every newly occupied slot holds a device of the directory that the driver takes. */
  lemma {:induction false} FreshOffered(t: Table, dir: seq<DirEntry>, i: nat)
    requires Sized(t) && AllProbeable(dir) && i in Scan(t, dir).1
    ensures i < XUSER_MAX_COUNT && Offered(dir, Scan(t, dir).0.inodes[i])
    decreases |dir|
  {
    hide Admits, InUse, Grows, Offered, Escapes;
    var slot, next := NextFree(t.used, 0), Next(t, dir[0]);
    var (last, mask) := Scan(next, dir[1..]);
    if i in mask {
      FreshOffered(next, dir[1..], i);
      OfferedTail(dir, last.inodes[i]);
    } else {
      MaskIsFresh(next, dir[1..]);
      GrowsFurther(t, slot, dir[0].inode, last, mask);
      assert Offered(dir, dir[0].inode) by { OfferedFirst(dir); }
    }
  }

  ghost predicate Held(t: Table, d: Inode)
    requires Sized(t)
  {
    exists i :: 0 <= i < XUSER_MAX_COUNT && t.used[i] && t.inodes[i] == d
  }

  ghost predicate Full(t: Table)
    requires Sized(t)
  {
    forall i :: 0 <= i < XUSER_MAX_COUNT ==> t.used[i]
  }

  lemma HeldStays(t: Table, dir: seq<DirEntry>, d: Inode)
    requires Sized(t) && AllProbeable(dir) && Held(t, d)
    ensures Held(Scan(t, dir).0, d)
  {
    hide Scan;
    MaskIsFresh(t, dir);
    var i :| 0 <= i < XUSER_MAX_COUNT && t.used[i] && t.inodes[i] == d;
    assert i !in Scan(t, dir).1;
  }

  /** The device counts as in use, whether or not the table holds it. */
  ghost predicate Recognised(t: Table, d: Inode)
    requires Sized(t)
  {
    Held(t, d) || InUse(t, d)
  }

  lemma NextRecognises(t: Table, e: DirEntry)
    requires Sized(t) && Probeable(e) && NextFree(t.used, 0) < XUSER_MAX_COUNT && Admits(e)
    ensures Recognised(Next(t, e), e.inode)
  {
    hide Admits, Converted;
    var slot := NextFree(t.used, 0);
    if Takes(t, e) {
      assert Next(t, e).used[slot] && Next(t, e).inodes[slot] == e.inode;
    }
  }

  lemma NextVacant(t: Table, e: DirEntry)
    requires Sized(t) && Probeable(e) && NextFree(t.used, 0) < XUSER_MAX_COUNT && Vacant(t)
    ensures Vacant(Next(t, e))
  {
    hide Takes;
  }

  lemma ScanVacant(t: Table, dir: seq<DirEntry>)
    requires Sized(t) && AllProbeable(dir) && Vacant(t)
    ensures Vacant(Scan(t, dir).0)
    decreases |dir|
  {
    hide Takes, Next, Vacant;
    if NextFree(t.used, 0) < XUSER_MAX_COUNT && dir != [] {
      NextVacant(t, dir[0]);
      ScanVacant(Next(t, dir[0]), dir[1..]);
    }
  }

  lemma RecognisedStays(t: Table, dir: seq<DirEntry>, d: Inode)
    requires Sized(t) && AllProbeable(dir) && Vacant(t) && Recognised(t, d)
    ensures Recognised(Scan(t, dir).0, d) || Full(Scan(t, dir).0)
  {
    hide Scan, Converted;
    var last := Scan(t, dir).0;
    ScanVacant(t, dir);
    if Held(t, d) {
      HeldStays(t, dir, d);
    } else {
      var i :| 0 <= i < XUSER_MAX_COUNT && t.inodes[i] == Converted(d);
      if t.used[i] {
        HeldStays(t, dir, Converted(d));
      } else if !Full(last) {
        var k :| 0 <= k < XUSER_MAX_COUNT && !last.used[k];
        assert last.inodes[k] == Converted(d);
      }
    }
  }

  lemma {:induction false} ScanRecognises(t: Table, dir: seq<DirEntry>, k: nat)
    requires Sized(t) && AllProbeable(dir) && k < |dir| && Admits(dir[k]) && Vacant(t) && !Undefined(t, dir)
    ensures Recognised(Scan(t, dir).0, dir[k].inode) || Full(Scan(t, dir).0)
    decreases |dir|
  {
    hide Admits, Takes, Next, Vacant, Recognised, Escapes, InUse;
    if NextFree(t.used, 0) < XUSER_MAX_COUNT {
      var next := Next(t, dir[0]);
      NextVacant(t, dir[0]);
      if k > 0 {
        ScanRecognises(next, dir[1..], k - 1);
      } else {
        NextRecognises(t, dir[0]);
        RecognisedStays(next, dir[1..], dir[0].inode);
      }
    }
  }

  /** A device the driver takes is left out of a scan that stays defined only when every slot
      is occupied or its converted inode number is in the table; and only in the first case
      when the number survives the conversion and is not the free mark, whatever else the
      directory holds. */
  lemma ScanComplete(t: Table, dir: seq<DirEntry>, k: nat)
    requires Sized(t) && AllProbeable(dir) && k < |dir| && Offers(dir[k]) && Vacant(t) && !Undefined(t, dir)
    ensures var last, d := Scan(t, dir).0, dir[k].inode;
      && (Held(last, d) || Full(last) || InUse(last, d))
      && (FitsInt(d) && d != NO_INODE ==> Held(last, d) || Full(last))
  {
    OffersIff(dir[k]);
    hide Admits, Offers, Scan, Undefined, Converted, FitsInt;
    ScanRecognises(t, dir, k);
    ScanVacant(t, dir);
    ConvertedIff(dir[k].inode);
  }

  /** The joystick can be opened, is a candidate and could be grabbed, and the allocator's axis
      scan leaves its bitmap. */
  ghost predicate Overruns(e: DirEntry)
    requires Probeable(e)
  {
    && e.joystick && e.opens && e.candidate && e.grabbed
    && Verdict(Flags(e.evKey), Flags(e.evAbs)) == Overrun
  }

  lemma OverrunsIff(e: DirEntry)
    requires Probeable(e)
    ensures Overruns(e) <==> Escapes(e)
  {
    hide Verdict, Flags;
  }

  /** Entry `k` is met while a slot is free, is not recognised, and makes the axis scan leave its
      bitmap. */
  ghost predicate StopsAt(t: Table, dir: seq<DirEntry>, k: nat)
    requires Sized(t) && AllProbeable(dir) && k < |dir|
  {
    var last := Scan(t, dir[..k]).0;
    !Undefined(t, dir[..k]) && !Full(last) && Overruns(dir[k]) && !InUse(last, dir[k].inode)
  }

  lemma FullIff(t: Table)
    requires Sized(t)
    ensures Full(t) <==> NextFree(t.used, 0) == XUSER_MAX_COUNT
  {}

  lemma StopsAtFirst(t: Table, dir: seq<DirEntry>)
    requires Sized(t) && AllProbeable(dir) && dir != []
    ensures StopsAt(t, dir, 0) <==> NextFree(t.used, 0) < XUSER_MAX_COUNT && ScanOver(t, dir)
  {
    FullIff(t);
    OverrunsIff(dir[0]);
    assert dir[..0] == [];
    hide Overruns, Escapes, InUse, Full;
  }

  lemma StopsAtNext(t: Table, dir: seq<DirEntry>, k: nat)
    requires Sized(t) && AllProbeable(dir) && dir != [] && k + 1 < |dir| && !ScanOver(t, dir)
    ensures StopsAt(t, dir, k + 1) <==> StopsAt(Next(t, dir[0]), dir[1..], k)
  {
    assert dir[..k + 1][0] == dir[0] && dir[..k + 1][1..] == dir[1..][..k] && dir[1..][k] == dir[k + 1];
    assert !ScanOver(t, dir[..k + 1]);
    ScanUnfolds(t, dir[..k + 1]);
    hide Scan, Undefined, Overruns, InUse, Full, Next, ScanOver;
  }

  lemma FullStays(t: Table, dir: seq<DirEntry>, k: nat)
    requires Sized(t) && AllProbeable(dir) && k < |dir| && NextFree(t.used, 0) == XUSER_MAX_COUNT
    ensures !StopsAt(t, dir, k)
  {
    FullIff(t);
    assert Scan(t, dir[..k]).0 == t;
    hide Scan, Overruns, InUse, Full;
  }

  lemma BeyondStop(t: Table, dir: seq<DirEntry>, k: nat)
    requires Sized(t) && AllProbeable(dir) && dir != [] && k < |dir| && k > 0 && ScanOver(t, dir)
    ensures !StopsAt(t, dir, k)
  {
    assert dir[..k][0] == dir[0];
    if NextFree(t.used, 0) == XUSER_MAX_COUNT {
      FullStays(t, dir, k);
    } else {
      assert Undefined(t, dir[..k]);
    }
    hide Overruns, Escapes, InUse, Full;
  }

  /** A scan becomes undefined exactly when it meets such a device. */
  lemma {:induction false} UndefinedIff(t: Table, dir: seq<DirEntry>)
    requires Sized(t) && AllProbeable(dir)
    ensures Undefined(t, dir) <==> exists k :: 0 <= k < |dir| && StopsAt(t, dir, k)
    decreases |dir|
  {
    assert ScanOver(t, dir) || NextFree(t.used, 0) < XUSER_MAX_COUNT;
    hide ScanOver, StopsAt, Next, Scan;
    if dir != [] {
      StopsAtFirst(t, dir);
      if ScanOver(t, dir) {
        forall k | 1 <= k < |dir| ensures !StopsAt(t, dir, k) { BeyondStop(t, dir, k); }
      } else {
        var next := Next(t, dir[0]);
        UndefinedIff(next, dir[1..]);
        forall k | 0 <= k < |dir| - 1 ensures StopsAt(t, dir, k + 1) <==> StopsAt(next, dir[1..], k) {
          StopsAtNext(t, dir, k);
        }
        if k :| 0 <= k < |dir| && StopsAt(t, dir, k) {
          assert StopsAt(next, dir[1..], k - 1);
        }
        if Undefined(next, dir[1..]) {
          var k :| 0 <= k < |dir[1..]| && StopsAt(next, dir[1..], k);
          assert StopsAt(t, dir, k + 1);
        }
      }
    }
  }

  // -------------------------------------------- the comparison as an int

  /** A device in the table is recognised whatever else the table holds exactly when its
      inode number survives the conversion to int. */
  lemma RecognisedIff(d: Inode)
    ensures (forall t: Table :: Sized(t) && d in t.inodes ==> InUse(t, d)) <==> FitsInt(d)
  {
    ConvertedIff(d);
    hide Converted, FitsInt;
    var only := Table([true, true, true, true], [d, d, d, d]);
    if forall t: Table :: Sized(t) && d in t.inodes ==> InUse(t, d) {
      assert d == only.inodes[0] && InUse(only, d);
    }
  }

  /** Nothing else is mistaken for a device in the table. */
  lemma NotMistaken(t: Table, d: Inode)
    requires Sized(t) && FitsInt(d)
    ensures InUse(t, d) <==> d in t.inodes
  {
    ConvertedIff(d);
    hide Converted, FitsInt;
  }

  lemma ScanOne(t: Table, e: DirEntry)
    requires Sized(t) && Probeable(e) && NextFree(t.used, 0) < XUSER_MAX_COUNT && Admits(e)
    ensures Scan(t, [e]).0 == Next(t, e)
  {
    hide InUse, Next;
    assert [e][1..] == [];
  }

  /** A device whose inode number does not survive the conversion takes another slot on each
      probe that finds one, unless something else holds the converted number: taking the
      slot does not make it recognised. */
  lemma WideInodeAgain(t: Table, e: DirEntry)
    requires Sized(t) && Probeable(e) && NextFree(t.used, 0) < XUSER_MAX_COUNT && Admits(e)
    requires !FitsInt(e.inode) && Converted(e.inode) !in t.inodes
    ensures Scan(t, [e]).0 == Occupy(t, NextFree(t.used, 0), e.inode)
    ensures Converted(e.inode) !in Scan(t, [e]).0.inodes
  {
    ScanOne(t, e);
    ConvertedIff(e.inode);
    hide Admits, Converted, FitsInt, Scan;
  }

  /** So from the initial table two probes give it two slots, when the converted number is
      not the mark of a free slot. */
  lemma WideInodeTwice(e: DirEntry)
    requires Probeable(e) && Admits(e) && !FitsInt(e.inode) && Converted(e.inode) != NO_INODE
    ensures var t := Scan(INITIAL, [e]).0;
      Scan(t, [e]).0 == Table([true, true, false, false], [e.inode, e.inode, NO_INODE, NO_INODE])
  {
    hide Admits, Converted, FitsInt, Scan;
    var t := Occupy(INITIAL, 0, e.inode);
    assert NextFree(INITIAL.used, 0) == 0 && NextFree(t.used, 0) == 1;
    WideInodeAgain(INITIAL, e);
    WideInodeAgain(t, e);
  }

  /** A device whose inode number converts to the mark of a free slot is never taken: while a
      slot is free it counts as in use. */
  lemma MarkNeverTaken(t: Table, e: DirEntry)
    requires Sized(t) && Vacant(t) && Probeable(e) && Converted(e.inode) == NO_INODE
    ensures Scan(t, [e]) == (t, {})
  {
    hide Converted, Admits, Escapes;
    assert [e][1..] == [];
    var slot := NextFree(t.used, 0);
    if slot < XUSER_MAX_COUNT { assert t.inodes[slot] == Converted(e.inode); }
  }

  lemma EscapeUndefined(e: DirEntry)
    requires Probeable(e) && Escapes(e) && Converted(e.inode) != NO_INODE
    ensures Undefined(INITIAL, [e])
  {
    hide Escapes, Converted;
    assert NextFree(INITIAL.used, 0) == 0;
  }

  /** A joystick that the driver gets to examine, with these capabilities. */
  function Joystick(d: Inode, keys: seq<bool>, axes: seq<bool>): DirEntry
    requires |keys| == 8 * 96 && |axes| == 8 * 8
  {
    DirEntry(true, d, true, true, true, Pack(keys, 96), Pack(axes, 8))
  }

  lemma OverrunUndefined(d: Inode, keys: seq<bool>, axes: seq<bool>)
    requires Capable(keys, axes) && Verdict(keys, axes) == Overrun && Converted(d) != NO_INODE
    ensures Probeable(Joystick(d, keys, axes)) && Undefined(INITIAL, [Joystick(d, keys, axes)])
  {
    hide Pack, Flags, Verdict, Undefined, Converted;
    PackedFlags(keys, 96);
    PackedFlags(axes, 8);
    EscapeUndefined(Joystick(d, keys, axes));
  }

  /** A directory with one ordinary device, whose only axes are a d-pad hat, makes the probe
      undefined. */
  lemma HatOnlyProbe()
    ensures |Devices.ELEVEN_KEYS| == 8 * 96 && |Devices.HAT_ONLY| == 8 * 8
    ensures var e := Joystick(5, Devices.ELEVEN_KEYS, Devices.HAT_ONLY);
      Probeable(e) && Undefined(INITIAL, [e])
  {
    hide Verdict, Joystick, Undefined, Pack, Flags, Devices.Having, Devices.FirstRows, Probeable;
    Devices.HatOnly();
    OverrunUndefined(5, Devices.ELEVEN_KEYS, Devices.HAT_ONLY);
  }

  // ------------------------------------------------------------------- runs

  /** A probe at a time, with what the directory shows if it can be opened, or a close. */
  datatype Op = Probe(now: nat, dir: Option<seq<DirEntry>>) | Close(slot: nat)

  datatype State = State(table: Table, epoch: nat)

  ghost predicate OpOk(op: Op)
  {
    match op
    case Probe(now, dir) => now < WORD64 && (dir.Some? ==> AllProbeable(dir.value) && AllFit(dir.value))
    case Close(slot) => slot < XUSER_MAX_COUNT
  }

  /** The unsigned difference of the two clock values decides whether a probe is due. */
  predicate Due(now: nat, epoch: nat)
  {
    (now - epoch) % WORD64 >= PROBE_PERIOD
  }

  ghost function ProbeAt(s: State, now: nat, dir: Option<seq<DirEntry>>): (r: (State, set<nat>))
    requires Sized(s.table) && (dir.Some? ==> AllProbeable(dir.value))
    ensures Sized(r.0.table)
  {
    if !Due(now, s.epoch) then (s, {})
    else if dir.None? then (State(s.table, now), {})
    else var (t, mask) := Scan(s.table, dir.value); (State(t, now), mask)
  }

  ghost function StepOp(s: State, op: Op): (r: (State, set<nat>))
    requires Sized(s.table) && OpOk(op)
    ensures Sized(r.0.table)
  {
    match op
    case Probe(now, dir) => ProbeAt(s, now, dir)
    case Close(slot) => (State(Vacate(s.table, slot), s.epoch), {})
  }

  ghost function RunOps(ops: seq<Op>): (s: State)
    requires forall i :: 0 <= i < |ops| ==> OpOk(ops[i])
    ensures Sized(s.table)
  {
    if ops == [] then State(INITIAL, 0) else StepOp(RunOps(ops[..|ops| - 1]), ops[|ops| - 1]).0
  }

  /** What a listener makes of the returned masks: a slot is present from the probe that
      announced it until its close. */
  ghost function Announced(ops: seq<Op>): set<nat>
    requires forall i :: 0 <= i < |ops| ==> OpOk(ops[i])
  {
    if ops == [] then {}
    else
      var rest, op := ops[..|ops| - 1], ops[|ops| - 1];
      match op
      case Probe(now, dir) => Announced(rest) + StepOp(RunOps(rest), op).1
      case Close(slot) => Announced(rest) - {slot}
  }

  ghost function UsedSlots(t: Table): (used: set<nat>)
    requires Sized(t)
    ensures forall i :: i in used <==> 0 <= i < XUSER_MAX_COUNT && t.used[i]
  {
    set i: nat | i < XUSER_MAX_COUNT && t.used[i]
  }

  /** Over all runs of probes and closes: occupied slots hold different devices, free ones
      hold none, and the masks announce exactly the occupied slots, none of them twice. */
  lemma {:induction false} SlotsOverRuns(ops: seq<Op>)
    requires forall i :: 0 <= i < |ops| ==> OpOk(ops[i])
    ensures var t := RunOps(ops).table;
      Distinct(t) && Vacant(t) && Announced(ops) == UsedSlots(t)
    ensures ops != [] && ops[|ops| - 1].Probe? ==>
      StepOp(RunOps(ops[..|ops| - 1]), ops[|ops| - 1]).1 !! Announced(ops[..|ops| - 1])
  {
    hide Scan, AllFit, AllProbeable, Due;
    if ops != [] {
      var rest, op := ops[..|ops| - 1], ops[|ops| - 1];
      SlotsOverRuns(rest);
      var t := RunOps(rest).table;
      if op.Probe? && op.dir.Some? {
        MaskIsFresh(t, op.dir.value);
        ScanDistinct(t, op.dir.value);
        ScanVacant(t, op.dir.value);
      }
    }
  }

  // ------------------------------------------------------------- the statics

  ghost function UsedUpTo(devices: seq<Generic.Device?>, n: nat): (used: seq<bool>)
    requires n <= |devices|
    ensures |used| == n && forall i :: 0 <= i < n ==> used[i] == (devices[i] != null)
  {
    if n == 0 then [] else UsedUpTo(devices, n - 1) + [devices[n - 1] != null]
  }

  /** The loop's invariant: the entries left give the rest of the answer. */
  ghost predicate Scanned(before: Table, dir: seq<DirEntry>, i: nat, t: Table, mask: set<nat>)
    requires Sized(before) && Sized(t) && AllProbeable(dir) && i <= |dir|
  {
    && Scan(before, dir).0 == Scan(t, dir[i..]).0
    && Scan(before, dir).1 == mask + Scan(t, dir[i..]).1
    && (Undefined(before, dir) <==> Undefined(t, dir[i..]))
  }

  lemma ScanStarts(t: Table, dir: seq<DirEntry>)
    requires Sized(t) && AllProbeable(dir)
    ensures Scanned(t, dir, 0, t, {})
  {
    hide Scan, Undefined;
    assert dir[0..] == dir;
  }

  lemma ScanDone(before: Table, dir: seq<DirEntry>, i: nat, t: Table, mask: set<nat>)
    requires Sized(before) && Sized(t) && AllProbeable(dir) && i <= |dir| && Scanned(before, dir, i, t, mask)
    requires ScanOver(t, dir[i..])
    ensures Scan(before, dir) == (t, mask)
    ensures Undefined(before, dir) <==> NextFree(t.used, 0) < XUSER_MAX_COUNT && i < |dir|
  {
    hide Escapes, InUse, Takes;
    assert Scan(t, dir[i..]) == (t, {});
    assert mask + {} == mask;
  }

  lemma ScanUnfolds(t: Table, dir: seq<DirEntry>)
    requires Sized(t) && AllProbeable(dir) && !ScanOver(t, dir)
    ensures Scan(t, dir).0 == Scan(Next(t, dir[0]), dir[1..]).0
    ensures Undefined(t, dir) <==> Undefined(Next(t, dir[0]), dir[1..])
    ensures Scan(t, dir).1 == Scan(Next(t, dir[0]), dir[1..]).1 + if Takes(t, dir[0]) then {NextFree(t.used, 0)} else {}
  {
    hide Takes, Next, Escapes, InUse;
  }

  lemma ScanNext(before: Table, dir: seq<DirEntry>, i: nat, t: Table, mask: set<nat>)
    requires Sized(before) && Sized(t) && AllProbeable(dir) && i < |dir| && Scanned(before, dir, i, t, mask)
    requires !ScanOver(t, dir[i..])
    ensures Scanned(before, dir, i + 1, Next(t, dir[i]), if Takes(t, dir[i]) then mask + {NextFree(t.used, 0)} else mask)
  {
    hide Takes, Next, Probeable, Escapes, InUse;
    assert AllProbeable(dir[i..]);
    assert dir[i..][0] == dir[i] && dir[i..][1..] == dir[i + 1..];
    ScanUnfolds(t, dir[i..]);
    hide Scan, Undefined;
  }

  /** The value of a 32-bit counter. */
  type Counter = n: nat | n < 0x1_0000_0000

  /** What a client can read about a slot. */
  datatype Snapshot = Snapshot(gamepad: Gamepad.Record, packets: Counter, connected: bool)

  /** What is published after each of the first events of a stream: the gamepad that these
      events describe, under a packet number that counts the events modulo 2^32. */
  ghost predicate Published(t: DeviceRun.Tables, es: seq<Translator.Event>, from: Counter, seen: seq<Snapshot>)
    requires DeviceRun.Sized(t) && DeviceRun.AllFit(t, es)
  {
    |seen| <= |es| &&
    forall i :: 0 <= i < |seen| ==>
      seen[i] == Snapshot(DeviceRun.Run(t, es[..i + 1]), (from + i + 1) % 0x1_0000_0000, true)
  }

  /** The counter after `n` more events. */
  function After(from: Counter, n: nat): Counter
  {
    (from + n) % 0x1_0000_0000
  }

  lemma CountNext(from: Counter, n: nat)
    ensures After(from, 0) == from && After(from, n + 1) == (After(from, n) + 1) % 0x1_0000_0000
  {}

  lemma PublishNothing(t: DeviceRun.Tables, es: seq<Translator.Event>, from: Counter)
    requires DeviceRun.Sized(t) && DeviceRun.AllFit(t, es)
    ensures Published(t, es, from, []) && DeviceRun.Run(t, es[..0]) == Gamepad.ZEROED
  {}

  lemma PublishNext(t: DeviceRun.Tables, es: seq<Translator.Event>, from: Counter, seen: seq<Snapshot>, now: Snapshot)
    requires DeviceRun.Sized(t) && DeviceRun.AllFit(t, es) && Published(t, es, from, seen) && |seen| < |es|
    requires DeviceRun.Fits(t, es[|seen|]) && now.connected && now.packets == After(from, |seen| + 1)
    requires now.gamepad == DeviceRun.Step(t, es[|seen|], DeviceRun.Run(t, es[..|seen|]))
    ensures now.gamepad == DeviceRun.Run(t, es[..|seen| + 1]) && Published(t, es, from, seen + [now])
  {
    hide DeviceRun.Step;
    assert es[..|seen| + 1][..|seen|] == es[..|seen|];
  }

  /** What the service shares about one slot. */
  class Shared {
    const gamepad: array<bv8>
    var packets: Counter
    var connected: bool

    ghost predicate Valid()
    {
      gamepad.Length == Gamepad.SIZE
    }

    constructor ()
      ensures Valid() && fresh(gamepad) && packets == 0 && !connected
    {
      gamepad := new bv8[Gamepad.SIZE](_ => 0);
      packets, connected := 0, false;
    }

    /** One event is read, and the gamepad published under the next packet number. */
    method Publish(device: Generic.Device, e: Translator.Event)
      requires Valid() && device.Valid() && gamepad != device.gamepad && DeviceRun.Fits(device.Maps(), e)
      modifies device.gamepad, gamepad, this`packets
      ensures device.gamepad[..] == DeviceRun.Step(device.Maps(), e, old(device.gamepad[..]))
      ensures gamepad[..] == device.gamepad[..] && packets == (old(packets) + 1) % 0x1_0000_0000
    {
      hide DeviceRun.Step;
      device.Read(e);
      device.Update(gamepad);
      packets := if packets == 0xFFFF_FFFF then 0 else packets + 1;
    }

    /** The loop of a reader thread, until the device fails. */
    method PublishAll(device: Generic.Device, es: seq<Translator.Event>) returns (ghost seen: seq<Snapshot>)
      requires Valid() && device.Valid() && gamepad != device.gamepad && connected
      requires device.gamepad[..] == Gamepad.ZEROED && DeviceRun.AllFit(device.Maps(), es)
      modifies device.gamepad, gamepad, this`packets
      ensures packets == After(old(packets), |es|)
      ensures |seen| == |es| && Published(device.Maps(), es, old(packets), seen)
      ensures gamepad[..] == if es == [] then old(gamepad[..]) else seen[|es| - 1].gamepad
    {
      hide DeviceRun.Step, DeviceRun.Run, DeviceRun.Fits, Published, After;
      ghost var t := device.Maps();
      seen := [];
      PublishNothing(t, es, packets);
      CountNext(packets, 0);
      var i := 0;
      while i < |es|
        invariant i == |seen| <= |es| && device.Maps() == t && connected
        invariant device.gamepad[..] == DeviceRun.Run(t, es[..i]) && Published(t, es, old(packets), seen)
        invariant packets == After(old(packets), i)
        invariant gamepad[..] == if i == 0 then old(gamepad[..]) else seen[i - 1].gamepad
      {
        Publish(device, es[i]);
        CountNext(old(packets), i);
        ghost var now := Snapshot(gamepad[..], packets, connected);
        assert now.gamepad == device.gamepad[..] && now.connected;
        PublishNext(t, es, old(packets), seen, now);
        seen, i := seen + [now], i + 1;
      }
    }
  }

  class SlotTable {
    const devices: array<Generic.Device?>
    const inodes: array<Inode>
    var lastEpoch: nat

    ghost predicate Valid()
    {
      devices.Length == XUSER_MAX_COUNT == inodes.Length
    }

    ghost function Contents(): (t: Table)
      requires Valid()
      reads devices, inodes
      ensures Sized(t)
    {
      Table(UsedUpTo(devices[..], XUSER_MAX_COUNT), inodes[..])
    }

    /** The statics as they start: no device, inode zero. */
    constructor ()
      ensures Valid() && fresh(devices) && fresh(inodes) && lastEpoch == 0
      ensures Contents() == Table([false, false, false, false], [0, 0, 0, 0])
    {
      devices := new Generic.Device?[XUSER_MAX_COUNT](_ => null);
      inodes := new Inode[XUSER_MAX_COUNT](_ => 0);
      lastEpoch := 0;
    }

    method NextFreeSlot() returns (slot: nat)
      requires Valid()
      ensures slot == NextFree(Contents().used, 0)
    {
      slot := 0;
      while slot < XUSER_MAX_COUNT
        invariant slot <= XUSER_MAX_COUNT && NextFree(Contents().used, 0) == NextFree(Contents().used, slot)
      {
        if devices[slot] == null {
          return;
        }
        slot := slot + 1;
      }
    }

    method DeviceInUse(d: Inode) returns (inUse: bool)
      requires Valid()
      ensures inUse <==> InUse(Contents(), d)
    {
      hide Converted;
      var i := 0;
      while i < XUSER_MAX_COUNT
        invariant i <= XUSER_MAX_COUNT && forall k :: 0 <= k < i ==> inodes[k] != Converted(d)
      {
        if inodes[i] == Converted(d) {
          return true;
        }
        i := i + 1;
      }
      return false;
    }

    /** Opens and examines one entry; on success the device sits in the slot. */
    method Take(e: DirEntry, slot: nat) returns (outcome: Outcome)
      requires Valid() && slot < XUSER_MAX_COUNT && Probeable(e)
      modifies devices, inodes
      ensures outcome == if e.opens && e.candidate && e.grabbed then Verdict(Flags(e.evKey), Flags(e.evAbs)) else Refused
      ensures Contents() == if outcome == Accepted then Occupy(old(Contents()), slot, e.inode) else old(Contents())
    {
      hide Flags, Verdict;
      if !e.opens || !e.candidate || !e.grabbed {
        return Refused;
      }
      outcome := Generic.CanTranslate(e.evKey, e.evAbs);
      if outcome == Accepted {
        var _, device := Generic.NewInstance(e.evKey, e.evAbs);
        devices[slot] := device;
        inodes[slot] := e.inode;
      }
    }

    /** The loop over the directory: it ends when no slot is free or no entry is left, or
        stops at a device whose bitmaps make the source's behaviour undefined. */
    method ReadDirectory(dir: seq<DirEntry>) returns (mask: set<nat>, undefined: bool)
      requires Valid() && AllProbeable(dir)
      modifies devices, inodes
      ensures (Contents(), mask) == Scan(old(Contents()), dir)
      ensures undefined <==> Undefined(old(Contents()), dir)
    {
      hide Scan, Scanned, Undefined, InUse, Flags, Verdict;
      mask := {};
      var i := 0;
      ScanStarts(Contents(), dir);
      while true
        invariant i <= |dir| && Scanned(old(Contents()), dir, i, Contents(), mask)
        decreases |dir| - i
      {
        var slot := NextFreeSlot();
        if slot == XUSER_MAX_COUNT || i == |dir| {
          ScanDone(old(Contents()), dir, i, Contents(), mask);
          return mask, false;
        }
        ghost var t := Contents();
        assert dir[i..][0] == dir[i];
        var outcome := Refused;
        if dir[i].joystick {
          var inUse := DeviceInUse(dir[i].inode);
          if !inUse {
            outcome := Take(dir[i], slot);
          }
        }
        if outcome == Overrun {
          ScanDone(old(Contents()), dir, i, t, mask);
          return mask, true;
        }
        ScanNext(old(Contents()), dir, i, t, mask);
        mask := if outcome == Accepted then mask + {slot} else mask;
        i := i + 1;
      }
    }

    method Probe(now: nat, dir: Option<seq<DirEntry>>) returns (mask: set<nat>, undefined: bool)
      requires Valid() && now < WORD64 && (dir.Some? ==> AllProbeable(dir.value))
      modifies this`lastEpoch, devices, inodes
      ensures Valid()
      ensures (State(Contents(), lastEpoch), mask) == ProbeAt(old(State(Contents(), lastEpoch)), now, dir)
      ensures undefined <==> Due(now, old(lastEpoch)) && dir.Some? && Undefined(old(Contents()), dir.value)
      ensures old(lastEpoch) <= now < old(lastEpoch) + 5_000_000 ==>
        mask == {} && !undefined && Contents() == old(Contents()) && lastEpoch == old(lastEpoch)
      ensures now >= old(lastEpoch) + 5_000_000 ==>
        && lastEpoch == now
        && (if dir.Some? then (Contents(), mask) == Scan(old(Contents()), dir.value)
            else Contents() == old(Contents()) && mask == {})
    {
      hide Admits, InUse, Undefined;
      mask, undefined := {}, false;
      if (now - lastEpoch) % WORD64 < PROBE_PERIOD {
        return;
      }
      lastEpoch := now;
      if dir.None? {
        return;
      }
      mask, undefined := ReadDirectory(dir.value);
    }

    method GetDevice(slot: nat) returns (device: Generic.Device?)
      requires Valid()
      ensures device != null <==> slot < XUSER_MAX_COUNT && Contents().used[slot]
      ensures slot < XUSER_MAX_COUNT ==> device == devices[slot]
    {
      device := if slot < XUSER_MAX_COUNT then devices[slot] else null;
    }

    method DeviceClose(slot: nat)
      requires Valid() && slot < XUSER_MAX_COUNT
      modifies devices, inodes
      ensures Contents() == Vacate(old(Contents()), slot) && inodes[slot] == 0xFFFF_FFFF_FFFF_FFFF
    {
      var device := GetDevice(slot);
      if device != null {
        devices[slot] := null;
      }
      inodes[slot] := NO_INODE;
    }

    method Initialize()
      requires Valid()
      modifies devices, inodes
      ensures Contents() == INITIAL
    {
      var slot := 0;
      while slot < XUSER_MAX_COUNT
        invariant slot <= XUSER_MAX_COUNT
        invariant forall i :: 0 <= i < slot ==> !Contents().used[i] && Contents().inodes[i] == NO_INODE
      {
        DeviceClose(slot);
        slot := slot + 1;
      }
    }

    /** The reader thread of one slot: it publishes the gamepad and counts a packet after
        every event, until the device fails; then it frees the slot.  `seen` lists what was
        published, event by event. */
    method Reader(slot: nat, device: Generic.Device, es: seq<Translator.Event>, shared: Shared)
      returns (ghost seen: seq<Snapshot>)
      requires Valid() && shared.Valid() && slot < XUSER_MAX_COUNT && devices[slot] == device
      requires device.Valid() && shared.gamepad != device.gamepad && device.gamepad[..] == Gamepad.ZEROED
      requires DeviceRun.AllFit(device.Maps(), es)
      modifies devices, inodes, device.gamepad, shared, shared.gamepad
      ensures Contents() == Vacate(old(Contents()), slot)
      ensures !shared.connected && shared.packets == (old(shared.packets) + |es|) % 0x1_0000_0000
      ensures |seen| == |es| && Published(old(device.Maps()), es, old(shared.packets), seen)
      ensures shared.gamepad[..] == if es == [] then old(shared.gamepad[..]) else seen[|es| - 1].gamepad
    {
      hide DeviceRun.Run, DeviceRun.Fits, Published;
      shared.connected := true;
      seen := shared.PublishAll(device, es);
      DeviceClose(slot);
      shared.connected := false;
    }
  }
}
