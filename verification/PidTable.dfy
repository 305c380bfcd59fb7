/** The scheduler's arrays that grow by doubling, and the pid table kept in two of them. */
module PidTable {
  import opened Words
  import opened Pids

  /**
   * Room for index `next`: the same array when it fits, else one of twice the size with the entries before `next`
   * copied. What the rest of the new array holds is whatever the allocation held.
   */
  method GrowIfFull<T(0)>(a: array<T>, next: nat) returns (r: array<T>)
    requires 0 < a.Length && next <= a.Length
    ensures next < a.Length ==> r == a
    ensures next == a.Length ==> fresh(r) && r.Length == 2 * a.Length
    ensures r[..a.Length] == a[..] && next < r.Length
  {
    if next < a.Length {
      return a;
    }
    r := new T[2 * a.Length];
    var i := 0;
    while i < next
      invariant 0 <= i <= next
      invariant r[..i] == a[..i]
    {
      r[i] := a[i];
      i := i + 1;
    }
  }

  class Table {
    var entries: array<Entry>
    var len: nat
    var freeSlots: array<nat>
    var freeLen: nat

    ghost predicate Valid()
      reads this
    {
      freeLen < freeSlots.Length && 0 < entries.Length
    }

    ghost function View(): PidState
      reads this, entries, freeSlots
      requires Valid()
    {
      PidState(entries[..], len, freeSlots[..freeLen])
    }

    constructor (cap: nat)
      requires 1 < cap
      ensures Valid() && fresh(entries) && fresh(freeSlots)
      ensures View() == PidState(seq(cap, _ => Entry(0, 0)), 1, [])
    {
      entries := new Entry[cap](_ => Entry(0, 0));
      len := 1;
      freeSlots := new nat[cap];
      freeLen := 0;
      new;
      assert entries[..] == seq(cap, _ => Entry(0, 0));
    }

    /** Pop the stack, or take the high-water mark. */
    method AcquireSlot() returns (slot: nat)
      requires Valid()
      modifies this`len, this`freeLen
      ensures Valid() && slot == NextSlot(old(View()))
      ensures View() == PidState(old(View()).entries, if old(freeLen) == 0 then old(len) + 1 else old(len),
                                 if old(freeLen) == 0 then [] else old(freeSlots[..freeLen - 1]))
    {
      if freeLen == 0 {
        slot := len;
        len := len + 1;
      } else {
        freeLen := freeLen - 1;
        slot := freeSlots[freeLen];
      }
    }

    /** A pid for the actor at `proc`; `spare` is what the new half of a grown table happened to hold. */
    method AssignPid(proc: Word) returns (pid: Word, ghost spare: seq<Entry>)
      requires Valid() && NextSlot(View()) < TWO_32 && NextSlot(View()) < entries.Length
      modifies this, entries
      ensures Valid() && (entries == old(entries) || fresh(entries)) && freeSlots == old(freeSlots)
      ensures CanAssign(old(View()), spare) && Pids.AssignPid(old(View()), proc, spare) == (View(), pid)
    {
      ghost var before := View();
      var slot := AcquireSlot();
      spare := seq(entries.Length, _ => Entry(0, 0));
      var full := slot + 1 == entries.Length;
      var grown := GrowIfFull(entries, slot + 1);
      if full {
        spare := grown[entries.Length..];
      }
      entries := grown;
      assert entries[..] == Grown(before.entries, slot, spare);
      var gen := Wrap(entries[slot].gen + 1);
      entries[slot] := Entry(gen, proc);
      pid := Pack(gen, slot);
      assert View().entries == Grown(before.entries, slot, spare)[slot := Entry(gen, proc)];
      assert View() == Pids.AssignPid(before, proc, spare).0;
    }

    method Find(pid: Word) returns (proc: Word)
      requires Valid() && SlotOf(pid) < entries.Length
      ensures proc == Lookup(View(), pid)
    {
      var e := entries[SlotOf(pid)];
      proc := if e.gen == GenOf(pid) then e.proc else 0;
    }

    method ClearPid(pid: Word)
      requires Valid() && SlotOf(pid) < entries.Length
      modifies this, entries, freeSlots
      ensures Valid() && entries == old(entries) && (freeSlots == old(freeSlots) || fresh(freeSlots))
      ensures View() == Pids.ClearPid(old(View()), pid)
    {
      ghost var before := View();
      var slot := SlotOf(pid);
      entries[slot] := Entry(entries[slot].gen, 0);
      if slot != 0 {
        var grown := GrowIfFull(freeSlots, freeLen + 1);
        freeSlots := grown;
        freeSlots[freeLen] := slot;
        freeLen := freeLen + 1;
        assert freeSlots[..freeLen] == before.free + [slot];
      }
      assert entries[..] == Pids.ClearPid(before, pid).entries;
    }
  }
}
