/**
  The allocation tracker of the test program: replacement `operator new`
  and `operator delete` that record every allocation in a fixed table of
  1024 entries, keep a running total of the bytes outstanding, can be told
  to fail the next allocation, and flag bad frees. A test passes its memory
  check when no bad free was flagged and the total is where it started.

  Addresses are abstract values supplied by the caller (what `malloc`
  returned); the table is first given as a value with its operations as
  functions, then as the class that updates the table in place.
 */
module AllocationTracker {

  /** `kMaxAllocations`: the capacity of the table. */
  const MaxAllocations: nat := 1024

  type Address = nat

  datatype State = Active | Freed

  /** One table entry: an address, the size allocated there, and whether it was freed. */
  datatype Allocation = Allocation(address: Address, size: nat, state: State)

  /** The three bad frees that are flagged. */
  datatype DeleteError = NotAllocated | AlreadyFreed | WrongSize

  /** The flagged bad free: `allocation_failure` when `raised`, with its address and message. */
  datatype Failure = Failure(address: Address, error: DeleteError)

  datatype Option<T> = None | Some(value: T)

  /**
    The tracker's whole state: the used part of the table, `total_size`,
    `force_next_allocation_failure` and the bad free flagged so far.
   */
  datatype Table = Table(entries: seq<Allocation>, total: nat, forceFailure: bool, failure: Option<Failure>)

  function ActiveSize(a: Allocation): nat {
    if a.state == Active then a.size else 0
  }

  /** The bytes the table records as still allocated. */
  function ActiveSum(e: seq<Allocation>): nat {
    if e == [] then 0 else ActiveSize(e[0]) + ActiveSum(e[1..])
  }

  ghost predicate DistinctAddresses(e: seq<Allocation>) {
    forall i, j :: 0 <= i < j < |e| ==> e[i].address != e[j].address
  }

  /**
    What every reachable state satisfies: the table is within capacity,
    holds each address at most once, and the total covers at least the
    bytes still recorded as allocated (so the subtraction of a free never
    goes below zero).
   */
  ghost predicate TableValid(t: Table) {
    |t.entries| <= MaxAllocations && DistinctAddresses(t.entries) && ActiveSum(t.entries) <= t.total
  }

  /** The search `find_if`: the first entry with address `p`, or `|e|` when there is none. */
  function Find(e: seq<Allocation>, p: Address): (i: nat)
    ensures i <= |e|
    ensures i < |e| ==> e[i].address == p
    ensures forall j :: 0 <= j < i ==> e[j].address != p
  {
    if e == [] then 0 else if e[0].address == p then 0 else 1 + Find(e[1..], p)
  }

  /** The entry for `p`, if the table has one. */
  function Lookup(e: seq<Allocation>, p: Address): Option<Allocation> {
    var i := Find(e, p);
    if i < |e| then Some(e[i]) else None
  }

  predicate IsActive(e: seq<Allocation>, p: Address) {
    Lookup(e, p).Some? && Lookup(e, p).value.state == Active
  }

  /** The bytes counted in the total but no longer recorded in the table. */
  function Gap(t: Table): nat
    requires TableValid(t)
  {
    t.total - ActiveSum(t.entries)
  }

  lemma {:induction false} ActiveSumAppend(e: seq<Allocation>, a: Allocation)
    ensures ActiveSum(e + [a]) == ActiveSum(e) + ActiveSize(a)
  {
    if e != [] {
      assert (e + [a])[1..] == e[1..] + [a];
      ActiveSumAppend(e[1..], a);
    }
  }

  lemma {:induction false} ActiveSumUpdate(e: seq<Allocation>, i: nat, a: Allocation)
    requires i < |e|
    ensures ActiveSum(e[i := a]) + ActiveSize(e[i]) == ActiveSum(e) + ActiveSize(a)
  {
    if i > 0 {
      assert e[i := a][1..] == e[1..][i - 1 := a];
      ActiveSumUpdate(e[1..], i - 1, a);
    }
  }

  /** With distinct addresses, the entry at `i` is the one found for its own address. */
  lemma FindAt(e: seq<Allocation>, i: nat)
    requires DistinctAddresses(e) && i < |e|
    ensures Find(e, e[i].address) == i
  {
  }

  /** Overwriting the entry for `p` with another entry for `p` leaves every other lookup as it was. */
  lemma FindAfterUpdate(e: seq<Allocation>, i: nat, a: Allocation, q: Address)
    requires i < |e| && a.address == e[i].address
    ensures Find(e[i := a], q) == Find(e, q)
  {
    var e' := e[i := a];
    assert forall j :: 0 <= j < |e| ==> e'[j].address == e[j].address;
  }

  /** Appending an entry for a missing address leaves every other lookup as it was. */
  lemma FindAfterAppend(e: seq<Allocation>, a: Allocation, q: Address)
    requires q != a.address
    ensures Find(e + [a], q) == if Find(e, q) < |e| then Find(e, q) else |e| + 1
  {
    var e' := e + [a];
    assert forall j :: 0 <= j < |e| ==> e'[j] == e[j];
    assert e'[|e|] == a;
  }

  datatype NewResult = NewResult(table: Table, ok: bool)

  /**
    `operator new(size)` returning address `p`. A forced failure clears the
    flag and throws without recording anything. Otherwise `size` is added
    to the total and an active entry for `p` is written over the entry with
    that address, or appended; when there is no such entry and the table is
    full it throws, with the size already added to the total.
   */
  function NewSpec(t: Table, size: nat, p: Address): (r: NewResult)
    requires TableValid(t)
    ensures TableValid(r.table)
    ensures t.forceFailure ==> !r.ok && r.table == t.(forceFailure := false)
    ensures !t.forceFailure ==> r.table.total == t.total + size && r.table.forceFailure == t.forceFailure
    ensures r.table.failure == t.failure
    ensures !t.forceFailure ==> (r.ok <==> Lookup(t.entries, p).Some? || |t.entries| < MaxAllocations)
    ensures !r.ok ==> r.table.entries == t.entries
  {
    if t.forceFailure then
      NewResult(t.(forceFailure := false), false)
    else
      var e := t.entries;
      var i := Find(e, p);
      var a := Allocation(p, size, Active);
      if i < |e| then
        ActiveSumUpdate(e, i, a);
        NewResult(t.(entries := e[i := a], total := t.total + size), true)
      else if |e| == MaxAllocations then
        NewResult(t.(total := t.total + size), false)
      else
        ActiveSumAppend(e, a);
        NewResult(t.(entries := e + [a], total := t.total + size), true)
  }

  /**
    `DoDelete(p, s, check_size)`: a free of an address the table does not
    hold, of an entry already freed, or (when `check_size`) with a size
    other than the one allocated is flagged and changes nothing else;
    otherwise the entry's size is taken off the total and it is marked freed.
   */
  function DeleteSpec(t: Table, p: Address, s: nat, checkSize: bool): (r: Table)
    requires TableValid(t)
    ensures TableValid(r)
    ensures r.forceFailure == t.forceFailure
    ensures Lookup(t.entries, p).None? ==> r == t.(failure := Some(Failure(p, NotAllocated)))
    ensures IsActive(t.entries, p) && !(checkSize && Lookup(t.entries, p).value.size != s) ==>
              r.total == t.total - Lookup(t.entries, p).value.size && r.failure == t.failure &&
              ActiveSum(r.entries) == ActiveSum(t.entries) - Lookup(t.entries, p).value.size
  {
    var e := t.entries;
    var i := Find(e, p);
    if i == |e| then
      t.(failure := Some(Failure(p, NotAllocated)))
    else if e[i].state == Freed then
      t.(failure := Some(Failure(p, AlreadyFreed)))
    else if checkSize && e[i].size != s then
      t.(failure := Some(Failure(p, WrongSize)))
    else
      var freed := e[i].(state := Freed);
      ActiveSumUpdate(e, i, freed);
      Table(e[i := freed], t.total - e[i].size, t.forceFailure, t.failure)
  }

  /** A successful allocation records `p` as active with its size, and no other address changes. */
  lemma NewRecords(t: Table, size: nat, p: Address, q: Address)
    requires TableValid(t) && NewSpec(t, size, p).ok
    ensures Lookup(NewSpec(t, size, p).table.entries, p) == Some(Allocation(p, size, Active))
    ensures q != p ==> Lookup(NewSpec(t, size, p).table.entries, q) == Lookup(t.entries, q)
  {
    var e := t.entries;
    var e' := NewSpec(t, size, p).table.entries;
    var a := Allocation(p, size, Active);
    var i := Find(e, p);
    if i < |e| {
      assert e' == e[i := a];
      FindAfterUpdate(e, i, a, p);
      FindAfterUpdate(e, i, a, q);
    } else {
      assert e' == e + [a];
      assert e'[|e|] == a;
      FindAt(e', |e|);
      if q != p {
        FindAfterAppend(e, a, q);
      }
    }
  }

  /** Every bad free is flagged with its kind, and leaves the table and the total as they were. */
  lemma DeleteFlagsBadFree(t: Table, p: Address, s: nat, checkSize: bool)
    requires TableValid(t)
    ensures var r := DeleteSpec(t, p, s, checkSize);
      && (Lookup(t.entries, p).None? ==> r.failure == Some(Failure(p, NotAllocated)))
      && (Lookup(t.entries, p).Some? && Lookup(t.entries, p).value.state == Freed ==>
            r.failure == Some(Failure(p, AlreadyFreed)))
      && (IsActive(t.entries, p) && checkSize && Lookup(t.entries, p).value.size != s ==>
            r.failure == Some(Failure(p, WrongSize)))
      && (!IsActive(t.entries, p) || (checkSize && Lookup(t.entries, p).value.size != s) ==>
            r.entries == t.entries && r.total == t.total && r.forceFailure == t.forceFailure)
  {
  }

  /** A successful free marks the entry for `p` freed and touches no other address. */
  lemma DeleteMarksFreed(t: Table, p: Address, s: nat, checkSize: bool, q: Address)
    requires TableValid(t) && IsActive(t.entries, p)
    requires !(checkSize && Lookup(t.entries, p).value.size != s)
    ensures var r := DeleteSpec(t, p, s, checkSize);
      && Lookup(r.entries, p) == Some(Lookup(t.entries, p).value.(state := Freed))
      && (q != p ==> Lookup(r.entries, q) == Lookup(t.entries, q))
  {
    var e := t.entries;
    var i := Find(e, p);
    var freed := e[i].(state := Freed);
    FindAfterUpdate(e, i, freed, p);
    FindAfterUpdate(e, i, freed, q);
  }

  /** A fresh address allocated and then freed with its own size leaves total and table accounting where they were. */
  lemma NewThenSizedDelete(t: Table, size: nat, p: Address)
    requires TableValid(t) && !t.forceFailure && !IsActive(t.entries, p)
    requires Lookup(t.entries, p).Some? || |t.entries| < MaxAllocations
    ensures var t1 := NewSpec(t, size, p).table;
      var t2 := DeleteSpec(t1, p, size, true);
      t2.total == t.total && t2.failure == t.failure && ActiveSum(t2.entries) == ActiveSum(t.entries)
  {
    var t1 := NewSpec(t, size, p).table;
    NewRecords(t, size, p, p);
    NewKeepsGap(t, size, p);
  }

  /** Freeing the same address twice flags the second free as already freed. */
  lemma DoubleFree(t: Table, p: Address, s: nat, checkSize: bool)
    requires TableValid(t) && IsActive(t.entries, p)
    requires !(checkSize && Lookup(t.entries, p).value.size != s)
    ensures DeleteSpec(DeleteSpec(t, p, s, checkSize), p, s, checkSize).failure == Some(Failure(p, AlreadyFreed))
  {
    DeleteMarksFreed(t, p, s, checkSize, p);
  }

  /**
    How `malloc` behaves: it never returns an address that is still
    allocated, and the tests never allocate while the full table has no
    entry to reuse.
   */
  predicate FreshAllocation(t: Table, p: Address) {
    t.forceFailure || (!IsActive(t.entries, p) && (Lookup(t.entries, p).Some? || |t.entries| < MaxAllocations))
  }

  lemma NewKeepsGap(t: Table, size: nat, p: Address)
    requires TableValid(t) && FreshAllocation(t, p)
    ensures Gap(NewSpec(t, size, p).table) == Gap(t)
  {
    if !t.forceFailure {
      var e := t.entries;
      var i := Find(e, p);
      var a := Allocation(p, size, Active);
      if i < |e| {
        ActiveSumUpdate(e, i, a);
      } else {
        ActiveSumAppend(e, a);
      }
    }
  }

  lemma DeleteKeepsGap(t: Table, p: Address, s: nat, checkSize: bool)
    requires TableValid(t)
    ensures Gap(DeleteSpec(t, p, s, checkSize)) == Gap(t)
  {
  }

  /** What a test body does to the tracker. */
  datatype Event =
    | New(size: nat, address: Address)           // `operator new(size)`, `malloc` having returned `address`
    | Delete(address: Address)                   // `operator delete(p)`: DoDelete(p, 0, false)
    | SizedDelete(address: Address, size: nat)   // `operator delete(p, s)`: DoDelete(p, s, true)
    | SetForceFailure(on: bool)                  // `force_next_allocation_failure = on`

  function Apply(t: Table, ev: Event): (r: Table)
    requires TableValid(t)
    ensures TableValid(r)
  {
    match ev
    case New(size, p) => NewSpec(t, size, p).table
    case Delete(p) => DeleteSpec(t, p, 0, false)
    case SizedDelete(p, s) => DeleteSpec(t, p, s, true)
    case SetForceFailure(on) => t.(forceFailure := on)
  }

  /** The state after the events `evs`, applied in order. */
  function Run(t: Table, evs: seq<Event>): (r: Table)
    requires TableValid(t)
    ensures TableValid(r)
    decreases |evs|
  {
    if evs == [] then t else Apply(Run(t, evs[..|evs| - 1]), evs[|evs| - 1])
  }

  predicate WellBehaved(t: Table, ev: Event) {
    ev.New? ==> FreshAllocation(t, ev.address)
  }

  /** Every allocation of the run comes from a `malloc` that behaves. */
  ghost predicate WellBehavedRun(t: Table, evs: seq<Event>)
    requires TableValid(t)
  {
    forall k :: 0 <= k < |evs| ==> WellBehaved(Run(t, evs[..k]), evs[k])
  }

  lemma ApplyKeepsGap(t: Table, ev: Event)
    requires TableValid(t) && WellBehaved(t, ev)
    ensures Gap(Apply(t, ev)) == Gap(t)
  {
    match ev
    case New(size, p) => NewKeepsGap(t, size, p);
    case Delete(p) => DeleteKeepsGap(t, p, 0, false);
    case SizedDelete(p, s) => DeleteKeepsGap(t, p, s, true);
    case SetForceFailure(on) =>
  }

  /** Over any well-behaved run, the total moves exactly as the bytes recorded as allocated do. */
  lemma {:induction false} RunKeepsGap(t: Table, evs: seq<Event>)
    requires TableValid(t) && WellBehavedRun(t, evs)
    ensures Gap(Run(t, evs)) == Gap(t)
  {
    if evs != [] {
      var init := evs[..|evs| - 1];
      forall k | 0 <= k < |init|
        ensures WellBehaved(Run(t, init[..k]), init[k])
      {
        assert init[..k] == evs[..k];
      }
      RunKeepsGap(t, init);
      assert init == evs[..|evs| - 1];
      ApplyKeepsGap(Run(t, init), evs[|evs| - 1]);
    }
  }

  /** The verdict of the memory check that `RunTest` makes after a test body. */
  datatype Verdict =
    | Passed
    | BadFree(failure: Failure)
    | Leaked(before: nat, after: nat)

  /** A flagged bad free fails the test first; then the total must equal `heap_before`. */
  function Judge(before: nat, t: Table): (v: Verdict)
    ensures v == Passed <==> t.failure == None && t.total == before
    ensures t.failure.Some? ==> v == BadFree(t.failure.value)
    ensures t.failure.None? && t.total != before ==> v == Leaked(before, t.total)
  {
    if t.failure.Some? then BadFree(t.failure.value)
    else if t.total != before then Leaked(before, t.total)
    else Passed
  }

  /** `RunTest` clears the forced failure and the flagged bad free before the body runs. */
  function Reset(t: Table): (r: Table)
    ensures r.entries == t.entries && r.total == t.total
    ensures !r.forceFailure && r.failure == None
  {
    t.(forceFailure := false, failure := None)
  }

  /**
    The leak check passes after a well-behaved test body exactly when no
    bad free was flagged and the bytes recorded as allocated add up to what
    they did before the body. Which allocations are active may differ: a
    body that frees an older block and leaks a new one of the same size
    passes, as it does in the test program.
   */
  lemma LeakCheck(t: Table, body: seq<Event>)
    requires TableValid(t) && WellBehavedRun(Reset(t), body)
    ensures var after := Run(Reset(t), body);
      Judge(t.total, after) == Passed <==>
        after.failure == None && ActiveSum(after.entries) == ActiveSum(t.entries)
  {
    assert TableValid(Reset(t));
    RunKeepsGap(Reset(t), body);
  }

  /** The tracker itself: the global `allocations` table and the variables beside it. */
  class Tracker {
    const allocations: array<Allocation>
    var numAllocations: nat
    var totalSize: nat
    var forceNextAllocationFailure: bool
    var allocationFailure: Option<Failure>

    ghost predicate Valid()
      reads this, allocations
    {
      allocations.Length == MaxAllocations && numAllocations <= MaxAllocations && TableValid(Model())
    }

    function Model(): Table
      reads this, allocations
      requires numAllocations <= allocations.Length
    {
      Table(allocations[..numAllocations], totalSize, forceNextAllocationFailure, allocationFailure)
    }

    /** The tracker at program start: an empty table and nothing outstanding. */
    constructor ()
      ensures Valid() && fresh(allocations)
      ensures Model() == Table([], 0, false, None)
    {
      allocations := new Allocation[MaxAllocations](_ => Allocation(0, 0, Active));
      numAllocations, totalSize := 0, 0;
      forceNextAllocationFailure, allocationFailure := false, None;
    }

    /** The `find_if` over the used part of the table. */
    method FindIndex(p: Address) returns (i: nat)
      requires Valid()
      ensures i == Find(Model().entries, p)
      ensures i <= numAllocations
    {
      i := 0;
      while i < numAllocations && allocations[i].address != p
        invariant i <= numAllocations
        invariant forall j :: 0 <= j < i ==> allocations[j].address != p
      {
        i := i + 1;
      }
    }

    /** `operator new(size)`, with `malloc` having returned `p`; `ok` is false where it throws. */
    method New(size: nat, p: Address) returns (ok: bool)
      requires Valid()
      modifies this, allocations
      ensures numAllocations <= MaxAllocations
      ensures NewResult(Model(), ok) == NewSpec(old(Model()), size, p)
      ensures Valid()
    {
      if forceNextAllocationFailure {
        forceNextAllocationFailure := false;
        assert Model() == old(Model()).(forceFailure := false);
        return false;
      }
      ghost var e := allocations[..numAllocations];
      var allocation := Allocation(p, size, Active);
      totalSize := totalSize + size;
      var i := FindIndex(p);
      if i < numAllocations {
        allocations[i] := allocation;
        assert allocations[..numAllocations] == e[i := allocation];
        ok := true;
      } else if numAllocations == MaxAllocations {
        ok := false;
      } else {
        allocations[numAllocations] := allocation;
        numAllocations := numAllocations + 1;
        assert allocations[..numAllocations] == e + [allocation];
        ok := true;
      }
    }

    /** `DoDelete(p, s, check_size)`. */
    method DoDelete(p: Address, s: nat, checkSize: bool)
      requires Valid()
      modifies this, allocations
      ensures numAllocations <= MaxAllocations
      ensures Model() == DeleteSpec(old(Model()), p, s, checkSize)
      ensures Valid()
    {
      ghost var e := allocations[..numAllocations];
      var i := FindIndex(p);
      if i == numAllocations {
        allocationFailure := Some(Failure(p, NotAllocated));
        return;
      } else if allocations[i].state == Freed {
        allocationFailure := Some(Failure(p, AlreadyFreed));
        return;
      } else if checkSize && allocations[i].size != s {
        allocationFailure := Some(Failure(p, WrongSize));
        return;
      }
      assert allocations[i] == e[i];
      ActiveSumUpdate(e, i, e[i].(state := Freed));
      totalSize := totalSize - allocations[i].size;
      allocations[i] := allocations[i].(state := Freed);
      assert allocations[..numAllocations] == e[i := e[i].(state := Freed)];
    }

    /** One step of a test body. */
    method Perform(ev: Event)
      requires Valid()
      modifies this, allocations
      ensures numAllocations <= MaxAllocations
      ensures Model() == Apply(old(Model()), ev)
      ensures Valid()
    {
      match ev
      case New(size, p) =>
        var _ := New(size, p);
      case Delete(p) =>
        DoDelete(p, 0, false);
      case SizedDelete(p, s) =>
        DoDelete(p, s, true);
      case SetForceFailure(on) =>
        forceNextAllocationFailure := on;
    }

    /**
      `RunTest`: clear the forced failure and the flag, note the total,
      run the body, then report a flagged bad free or a changed total.
     */
    method RunTest(body: seq<Event>) returns (v: Verdict)
      requires Valid()
      modifies this, allocations
      ensures Valid()
      ensures Model() == Run(Reset(old(Model())), body)
      ensures v == Judge(old(totalSize), Model())
    {
      forceNextAllocationFailure := false;
      allocationFailure := None;
      var heapBefore := totalSize;
      ghost var start := Model();
      var k := 0;
      while k < |body|
        invariant 0 <= k <= |body|
        invariant Valid() && TableValid(start)
        invariant Model() == Run(start, body[..k])
      {
        Perform(body[k]);
        assert body[..k + 1][..k] == body[..k];
        k := k + 1;
      }
      assert body[..|body|] == body;
      var heapAfter := totalSize;
      if allocationFailure.Some? {
        v := BadFree(allocationFailure.value);
      } else if heapBefore != heapAfter {
        v := Leaked(heapBefore, heapAfter);
      } else {
        v := Passed;
      }
    }
  }
}
