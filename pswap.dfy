/**
  The single-page software watchpoint of driver/pswap.c.

  Driver holds the module's globals (the tracked task and the one
  pswap_context) together with the kernel state the two hooks read and
  write: the upper page-table levels, the leaf ptes, which tasks have
  single-step enabled and which signals are pending. The hooks are called
  as plain methods; calling the original kernel function is the outcome
  Delegated. Every set_pte and every pswap_flush_all is recorded, in order,
  in a ghost event log.
*/
module Pswap {
  import opened PageWalk
  import opened Watch

  /** The kernel events the module causes, in the order it causes them. */
  datatype Event =
    | PteWrite(at: Ptr, value: Pte)  // set_pte
    | Flush                          // pswap_flush_all: TLB flush then cache invalidate, on every CPU
    | HooksInstalled
    | HooksRemoved

  /** Handled: the hook returned without calling the original function. */
  datatype Outcome = Handled | Delegated

  const FaultFlagRemote: bv32 := 0x80

  /**
    The parts of a struct vm_fault the hook reads: its flags, the pte table
    its pmd entry points to, the faulting address and the real address.
  */
  datatype Vmf = Vmf(flags: bv32, pteTable: Ptr, address: u64, realAddress: u64)

  /**
    pte_offset_map(vmf->pmd, vmf->address): an aligned entry inside the pte
    table, the very slot the page-table walk ends on for that table.
  */
  function FaultingPte(vmf: Vmf): (p: Ptr)
    ensures vmf.pteTable <= p < vmf.pteTable + EntriesPerTable * EntrySize
    ensures (p - vmf.pteTable) % EntrySize == 0
  {
    Slot(vmf.pteTable, PteLevel, vmf.address)
  }

  /**
    When the fault's pte table is the one a full chain of valid entries
    from the task's pgd leads to, the faulting pte is what pswap_virt_to_pte
    gives for the fault's address, so the hook's pointer comparison matches.
  */
  lemma {:induction false} FaultOnWalkedPte(t: Task, mem: Memory, vmf: Vmf, path: seq<Ptr>)
    requires |path| == |Levels| && Reaches(mem, vmf.address, path) && path[0] == t.pgd
    requires path[4] == vmf.pteTable && FaultingPte(vmf) != 0
    ensures VirtToPte(Some(t), mem, vmf.address) == Some(FaultingPte(vmf))
  {
    assert WalksTo(mem, t.pgd, vmf.address, FaultingPte(vmf));
    WalkCharacterised(t, mem, vmf.address, FaultingPte(vmf));
  }

  /** memcpy of a whole page into a freshly allocated buffer. */
  method Memcpy(dst: array<bv8>, src: seq<bv8>)
    requires dst.Length == |src|
    modifies dst
    ensures dst[..] == src
  {
    var i := 0;
    while i < |src|
      invariant 0 <= i <= |src|
      invariant dst[..i] == src[..i]
    {
      dst[i] := src[i];
      i := i + 1;
    }
  }

  /** Copy the exec page into the read page and patch offsets 341 to 344 with de ad be ef. */
  method FillReadPage(buf: array<bv8>, execPage: seq<bv8>)
    requires buf.Length == |execPage| == PageSize
    modifies buf
    ensures buf[..] == PatchedPage(execPage)
  {
    Memcpy(buf, execPage);
    buf[341] := 0xde;
    buf[342] := 0xad;
    buf[343] := 0xbe;
    buf[344] := 0xef;
    forall i | 0 <= i < PageSize
      ensures buf[i] == PatchedPage(execPage)[i]
    {
    }
  }

  /** struct pswap_context. */
  class Context {
    var markedVirtAddr: u64
    var ptep: Ptr
    /** read_virt_addr: the kmalloc'd read page. */
    var readPage: array?<bv8>
    /** The bytes seen through exec_virt_addr, the kmap of the pinned user page. */
    var execPage: seq<bv8>
    var readPte: Pte
    var execPte: Pte
    const markedRips: array<u64>

    /** The zero-initialised static. */
    constructor ()
      ensures markedVirtAddr == 0 && ptep == 0 && readPage == null && execPage == []
      ensures readPte == ZeroPte && execPte == ZeroPte
      ensures fresh(markedRips) && markedRips[..] == NoRips
    {
      markedVirtAddr, ptep, readPage, execPage := 0, 0, null, [];
      readPte, execPte := ZeroPte, ZeroPte;
      markedRips := new u64[MaxMarkedRips](_ => 0);
    }

    /** marked_rips[0] = rip. */
    method MarkRip(rip: u64)
      requires markedRips.Length == MaxMarkedRips
      modifies markedRips
      ensures markedRips[..] == old(markedRips[..])[0 := rip]
      ensures old(markedRips[..]) == NoRips ==> markedRips[..] == InitialRips(rip)
    {
      markedRips[0] := rip;
      if old(markedRips[..]) == NoRips {
        StoreFirstRip(rip);
      }
    }

    /**
      The rest of init's work on the context: the watched address, its pte
      pointer, the exec pte read through it, the exec page, and a fresh read
      page that is the patched copy, mapped by a present shared-exec pte.
    */
    method Capture(addr: u64, ptep: Ptr, live: Pte, execPage: seq<bv8>, readFrame: Frame)
      requires |execPage| == PageSize
      modifies this
      ensures markedVirtAddr == addr && this.ptep == ptep
      ensures execPte == live && this.execPage == execPage
      ensures readPte == Pte(true, readFrame, SharedExec)
      ensures readPage != null && fresh(readPage) && readPage[..] == PatchedPage(execPage)
    {
      markedVirtAddr := addr;
      this.ptep := ptep;
      this.execPage := execPage;
      execPte := live;

      var buf := new bv8[PageSize];
      readPage := buf;
      readPte := Pte(true, readFrame, SharedExec);
      FillReadPage(buf, execPage);
    }

    /** pswap_is_marked_rip: 1 when some slot of marked_rips holds `addr`, 0 otherwise. */
    method IsMarkedRip(addr: u64) returns (r: int)
      requires markedRips.Length == MaxMarkedRips
      ensures r == (if addr in markedRips[..] then 1 else 0)
    {
      var i := 0;
      while i < MaxMarkedRips
        invariant 0 <= i <= MaxMarkedRips
        invariant addr !in markedRips[..i]
      {
        if addr == markedRips[i] {
          return 1;
        }
        i := i + 1;
      }
      assert markedRips[..i] == markedRips[..];
      return 0;
    }
  }

  class Driver {
    /** Upper page-table levels, read by the walk. */
    var tables: Memory
    /** Leaf page-table entries, by address. */
    var ptes: map<Ptr, Pte>
    /** Tasks with single-step enabled. */
    var stepping: set<Task>
    var pending: map<Task, set<Signal>>
    var hooked: bool
    ghost var events: seq<Event>

    /** pswap_task. */
    var task: Option<Task>
    /** pswap_global_context. */
    const ctx: Context

    /** The module before init, over the given kernel state. */
    constructor (tables: Memory, ptes: map<Ptr, Pte>, stepping: set<Task>, pending: map<Task, set<Signal>>)
      ensures this.tables == tables && this.ptes == ptes
      ensures this.stepping == stepping && this.pending == pending
      ensures !hooked && events == [] && task == None
      ensures fresh(ctx) && fresh(ctx.markedRips) && ctx.markedRips[..] == NoRips
      ensures ctx.markedVirtAddr == 0 && ctx.ptep == 0 && ctx.readPage == null && ctx.execPage == []
      ensures ctx.readPte == ZeroPte && ctx.execPte == ZeroPte
      ensures Valid()
    {
      this.tables, this.ptes := tables, ptes;
      this.stepping, this.pending := stepping, pending;
      hooked, events, task := false, [], None;
      ctx := new Context();
    }

    predicate Valid() {
      ctx.markedRips.Length == MaxMarkedRips
    }

    /**
      The invariant while the watch is armed, across the module's own
      actions: the hooks are installed, the leaf entry is one of the two
      backings with the present flag either way, the read page is the
      patched copy of the exec page (the target's own writes, which land in
      the read page, are not modelled), and the entry is present only while
      the tracked task is single-stepping.
    */
    ghost predicate Watching()
      reads this, ctx, ctx.readPage
    {
      && hooked
      && task.Some?
      && ctx.ptep != 0
      && ctx.readPte.present
      && ctx.readPte.frame != ctx.execPte.frame
      && ctx.readPage != null
      && |ctx.execPage| == PageSize
      && ctx.readPage[..] == PatchedPage(ctx.execPage)
      && var live := PteAt(ptes, ctx.ptep);
         && (live.(present := true) == ctx.execPte.(present := true) || live.(present := true) == ctx.readPte)
         && (live.present ==> task.value in stepping)
    }

    /** The bytes the watched page shows through the frame its leaf entry maps. */
    ghost function Mapped(): seq<bv8>
      reads this, ctx, ctx.readPage
      requires ctx.readPage != null
    {
      if PteAt(ptes, ctx.ptep).frame == ctx.readPte.frame then ctx.readPage[..] else ctx.execPage
    }

    /** set_pte. */
    method SetPte(at: Ptr, value: Pte)
      modifies this`ptes, this`events
      ensures ptes == old(ptes)[at := value]
      ensures events == old(events) + [PteWrite(at, value)]
    {
      ptes := ptes[at := value];
      events := events + [PteWrite(at, value)];
    }

    /** pswap_flush_all, as one event. */
    method FlushAll()
      modifies this`events
      ensures events == old(events) + [Flush]
    {
      events := events + [Flush];
    }

    /**
      pswap_driver_init. `found` is what the pid lookup gave, `pinned` the
      leaf entry once get_user_pages_remote has faulted the page in and
      pinned it, `execPage` the content of that page, `readFrame` the frame
      of the kmalloc'd read page and `installErr` what hook installation
      returned. The code dereferences the task and the walked pte pointer
      without checking them, hence the first two preconditions.
    */
    method Init(found: Option<Task>, addr: u64, rip: u64, pinned: Pte, execPage: seq<bv8>, readFrame: Frame, installErr: int)
      returns (err: int)
      requires Valid()
      requires found.Some?
      requires VirtToPte(found, tables, addr).Some?
      requires pinned.present
      requires PteAt(ptes, VirtToPte(found, tables, addr).value).present ==>
                 pinned == PteAt(ptes, VirtToPte(found, tables, addr).value)
      requires |execPage| == PageSize
      requires readFrame != pinned.frame
      modifies this, ctx, ctx.markedRips
      ensures tables == old(tables) && stepping == old(stepping) && pending == old(pending)
      ensures task == found
      ensures ctx.markedVirtAddr == addr
      ensures ctx.markedRips[..] == old(ctx.markedRips[..])[0 := rip]
      ensures old(ctx.markedRips[..]) == NoRips ==> ctx.markedRips[..] == InitialRips(rip)
      ensures ctx.ptep == VirtToPte(found, tables, addr).value
      ensures ctx.execPte == pinned && ctx.execPte.present
      ensures ctx.readPte == Pte(true, readFrame, SharedExec)
      ensures ctx.execPage == execPage
      ensures ctx.readPage != null && fresh(ctx.readPage) && ctx.readPage[..] == PatchedPage(execPage)
      ensures ptes == old(ptes)[ctx.ptep := ctx.execPte.(present := false)]
      ensures events == old(events) + [PteWrite(ctx.ptep, ctx.execPte.(present := false)), Flush]
                        + (if installErr == 0 then [HooksInstalled] else [])
      ensures err == installErr && hooked == (installErr == 0 || old(hooked))
      ensures err == 0 ==> Watching()
    {
      task := found;
      ctx.MarkRip(rip);
      var ptep := VirtToPte(task, tables, addr).value;
      // get_user_pages_remote: the kernel maps the page in if it is not resident.
      ptes := ptes[ptep := pinned];
      ctx.Capture(addr, ptep, PteAt(ptes, ptep), execPage, readFrame);

      SetPte(ptep, PteAt(ptes, ptep).(present := false));
      FlushAll();

      if installErr != 0 {
        return installErr;
      }
      hooked := true;
      events := events + [HooksInstalled];
      return 0;
    }

    /**
      pswap_hooked_handle_pte_fault, for a fault taken by `current` whose
      saved instruction pointer is `ip`.
    */
    method FaultHook(current: Task, vmf: Vmf, ip: u64) returns (outcome: Outcome)
      requires Valid()
      modifies this
      ensures outcome == Handled <==>
        task == Some(current) && vmf.flags & FaultFlagRemote == 0 && FaultingPte(vmf) == ctx.ptep
      ensures outcome == Delegated ==>
        ptes == old(ptes) && stepping == old(stepping) && events == old(events)
      ensures outcome == Handled ==>
        var chosen := Backing(Classify(ctx.markedRips[..], ip, vmf.realAddress), ctx.readPte, ctx.execPte);
        && ptes == old(ptes)[ctx.ptep := chosen.(present := true)]
        && stepping == old(stepping) + {current}
        && events == old(events) + [PteWrite(ctx.ptep, chosen), PteWrite(ctx.ptep, chosen.(present := true)), Flush]
      ensures tables == old(tables) && pending == old(pending) && hooked == old(hooked) && task == old(task)
      ensures old(Watching()) ==> Watching()
      ensures old(Watching()) && outcome == Handled ==>
        Mapped() == if Classify(ctx.markedRips[..], ip, vmf.realAddress) == InstructionFetch
                    then ctx.execPage else ctx.readPage[..]
    {
      if task != Some(current) {
        return Delegated;
      }
      if vmf.flags & FaultFlagRemote != 0 {
        return Delegated;
      }
      var faultingPte := FaultingPte(vmf);
      if ctx.ptep != faultingPte {
        return Delegated;
      }

      var marked := ctx.IsMarkedRip(ip);
      if marked == 1 {
        SetPte(ctx.ptep, ctx.readPte);
      } else if vmf.realAddress == ip {
        SetPte(ctx.ptep, ctx.execPte);
      } else {
        SetPte(ctx.ptep, ctx.readPte);
      }

      SetPte(ctx.ptep, PteAt(ptes, ctx.ptep).(present := true));
      FlushAll();

      stepping := stepping + {current};
      return Handled;
    }

    /**
      pswap_hooked_arch_do_signal_or_restart. For the tracked task it
      clears the present flag without checking whether a step is
      outstanding, disables single-step and drops SIGTRAP.
    */
    method SignalHook(current: Task) returns (outcome: Outcome)
      requires Valid()
      modifies this
      ensures outcome == Handled <==> task == Some(current)
      ensures outcome == Delegated ==>
        ptes == old(ptes) && stepping == old(stepping) && pending == old(pending) && events == old(events)
      ensures outcome == Handled ==>
        var cleared := old(PteAt(ptes, ctx.ptep)).(present := false);
        && ptes == old(ptes)[ctx.ptep := cleared]
        && stepping == old(stepping) - {current}
        && pending == old(pending)[current := PendingOf(old(pending), current) - {SigTrap}]
        && events == old(events) + [PteWrite(ctx.ptep, cleared), Flush]
      ensures tables == old(tables) && hooked == old(hooked) && task == old(task)
      ensures old(Watching()) ==> Watching()
    {
      if task != Some(current) {
        return Delegated;
      }

      SetPte(ctx.ptep, PteAt(ptes, ctx.ptep).(present := false));
      FlushAll();

      stepping := stepping - {current};

      pending := pending[current := PendingOf(pending, current) - {SigTrap}];
      return Handled;
    }

    /**
      pswap_driver_exit: remove the hooks, then set the present flag on the
      watched entry, keeping whichever backing it maps.
    */
    method Exit()
      modifies this
      ensures !hooked
      ensures var restored := old(PteAt(ptes, ctx.ptep)).(present := true);
        && ptes == old(ptes)[ctx.ptep := restored]
        && events == old(events) + [HooksRemoved, PteWrite(ctx.ptep, restored), Flush]
      ensures tables == old(tables) && stepping == old(stepping) && pending == old(pending) && task == old(task)
      ensures old(Watching()) ==>
        var live := PteAt(ptes, ctx.ptep);
        live.present && (live == ctx.execPte.(present := true) || live == ctx.readPte)
    {
      hooked := false;
      events := events + [HooksRemoved];

      SetPte(ctx.ptep, PteAt(ptes, ctx.ptep).(present := true));
      FlushAll();
    }
  }
}
