/**
  The page-table walk of driver/include/util.h (pswap_virt_to_pte) and the
  kernel values it works on.

  Page-table memory is a map from the address of an entry to the entry, as
  the pXd_none / pXd_bad macros classify it; an address the map does not
  hold reads as an all-zero, "none" entry. Pointers are plain addresses and
  0 is NULL.
*/
module PageWalk {

  /** An `unsigned long`: a user virtual address or an instruction pointer. */
  type u64 = x: int | 0 <= x < 0x1_0000_0000_0000_0000

  /** A kernel pointer; 0 is NULL. */
  type Ptr = nat

  datatype Option<T> = None | Some(value: T)

  /** An upper-level entry: none, bad, or a valid link to the next table. */
  datatype Entry = Empty | Bad | Table(next: Ptr)

  datatype Level = PgdLevel | P4dLevel | PudLevel | PmdLevel | PteLevel

  /** The levels in the order the walk visits them. */
  const Levels: seq<Level> := [PgdLevel, P4dLevel, PudLevel, PmdLevel, PteLevel]

  /** A task, compared by identity; `pgd` is the root table of its `mm`. */
  datatype Task = Task(id: nat, pgd: Ptr)

  type Memory = map<Ptr, Entry>

  const EntriesPerTable: nat := 512
  const EntrySize: nat := 8

  function Read(mem: Memory, p: Ptr): Entry {
    if p in mem then mem[p] else Empty
  }

  /** Bytes of address space one entry of the level covers. */
  function Span(level: Level): nat {
    match level
    case PgdLevel => 0x1_0000_0000_0000  // 1 << 48
    case P4dLevel => 0x80_0000_0000      // 1 << 39
    case PudLevel => 0x4000_0000         // 1 << 30
    case PmdLevel => 0x20_0000           // 1 << 21
    case PteLevel => 0x1000              // 1 << 12
  }

  /** pXd_offset: the address of the entry for `addr` in the table at `base`. */
  function Slot(base: Ptr, level: Level, addr: u64): Ptr {
    base + EntrySize * ((addr / Span(level)) % EntriesPerTable)
  }

  /**
    pswap_virt_to_pte: NULL for a NULL task; otherwise descend pgd, p4d,
    pud and pmd, giving up at the first entry that is none or bad, and
    return the address of the pte slot unless it is NULL.
  */
  function VirtToPte(task: Option<Task>, mem: Memory, addr: u64): (r: Option<Ptr>)
    ensures task.None? ==> r.None?
    ensures r.Some? ==> r.value != 0
  {
    if task.None? then None
    else
      var pgd := Read(mem, Slot(task.value.pgd, PgdLevel, addr));
      if !pgd.Table? then None
      else
        var p4d := Read(mem, Slot(pgd.next, P4dLevel, addr));
        if !p4d.Table? then None
        else
          var pud := Read(mem, Slot(p4d.next, PudLevel, addr));
          if !pud.Table? then None
          else
            var pmd := Read(mem, Slot(pud.next, PmdLevel, addr));
            if !pmd.Table? then None
            else
              var ptep := Slot(pmd.next, PteLevel, addr);
              if ptep == 0 then None else Some(ptep)
  }

  /**
    `path` lists table bases, one per level from the pgd down, and each
    one is reached from the previous through a valid entry indexed by `addr`.
  */
  ghost predicate Reaches(mem: Memory, addr: u64, path: seq<Ptr>)
    requires |path| <= |Levels|
  {
    forall i :: 0 <= i < |path| - 1 ==>
      Read(mem, Slot(path[i], Levels[i], addr)) == Table(path[i + 1])
  }

  /** The reference walk: some chain of valid links leads from `pgd` to the non-NULL slot `ptep`. */
  ghost predicate WalksTo(mem: Memory, pgd: Ptr, addr: u64, ptep: Ptr) {
    exists path: seq<Ptr> ::
      && |path| == |Levels|
      && Reaches(mem, addr, path)
      && path[0] == pgd
      && ptep == Slot(path[4], PteLevel, addr)
      && ptep != 0
  }

  /** The walk returns `ptep` exactly when a full chain of valid upper entries leads there. */
  lemma {:induction false} WalkCharacterised(t: Task, mem: Memory, addr: u64, ptep: Ptr)
    ensures VirtToPte(Some(t), mem, addr) == Some(ptep) <==> WalksTo(mem, t.pgd, addr, ptep)
  {
    if VirtToPte(Some(t), mem, addr) == Some(ptep) {
      var b1 := Read(mem, Slot(t.pgd, PgdLevel, addr)).next;
      var b2 := Read(mem, Slot(b1, P4dLevel, addr)).next;
      var b3 := Read(mem, Slot(b2, PudLevel, addr)).next;
      var b4 := Read(mem, Slot(b3, PmdLevel, addr)).next;
      var path := [t.pgd, b1, b2, b3, b4];
      assert Reaches(mem, addr, path) by {
        forall i | 0 <= i < |path| - 1
          ensures Read(mem, Slot(path[i], Levels[i], addr)) == Table(path[i + 1])
        {
        }
      }
      assert ptep == Slot(path[4], PteLevel, addr);
    }
    if WalksTo(mem, t.pgd, addr, ptep) {
      var path :| |path| == |Levels| && Reaches(mem, addr, path) && path[0] == t.pgd
                  && ptep == Slot(path[4], PteLevel, addr) && ptep != 0;
      assert Read(mem, Slot(path[0], Levels[0], addr)) == Table(path[1]);
      assert Read(mem, Slot(path[1], Levels[1], addr)) == Table(path[2]);
      assert Read(mem, Slot(path[2], Levels[2], addr)) == Table(path[3]);
      assert Read(mem, Slot(path[3], Levels[3], addr)) == Table(path[4]);
    }
  }

  /**
    A walk that gets as far as an upper level (pgd, p4d, pud or pmd) whose
    entry is none or bad yields NULL.
  */
  lemma {:induction false} StopsAtInvalidLevel(t: Task, mem: Memory, addr: u64, path: seq<Ptr>)
    requires 1 <= |path| < |Levels|
    requires path[0] == t.pgd && Reaches(mem, addr, path)
    requires !Read(mem, Slot(path[|path| - 1], Levels[|path| - 1], addr)).Table?
    ensures VirtToPte(Some(t), mem, addr).None?
  {
    if |path| > 1 {
      assert Read(mem, Slot(path[0], Levels[0], addr)) == Table(path[1]);
    }
    if |path| > 2 {
      assert Read(mem, Slot(path[1], Levels[1], addr)) == Table(path[2]);
    }
    if |path| > 3 {
      assert Read(mem, Slot(path[2], Levels[2], addr)) == Table(path[3]);
    }
  }
}
