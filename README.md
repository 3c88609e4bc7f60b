# pswap: a single-page software watchpoint, modelled in Dafny

pswap is a Linux kernel module that watches one page of one process. At load
it finds the page's leaf page-table entry (pte). It keeps two candidate
backings for that entry. The exec pte is the page's original mapping. The
read pte maps a kmalloc'd copy of the page with four bytes patched. It then
clears the entry's present flag, so every access to the page faults.

The module hooks the kernel's `handle_pte_fault`. On a fault of the tracked
task on the watched entry, it picks a backing, marks the entry present,
flushes every CPU's TLB and caches, and enables single-step. The backing is
chosen in this order:

- the read pte when the instruction pointer is one of the marked rips;
- otherwise the exec pte when the fault's real address is the instruction pointer;
- otherwise the read pte.

The module also hooks `arch_do_signal_or_restart`. After the stepped
instruction, for the tracked task, that hook clears the present flag again,
disables single-step and drops the SIGTRAP the step raised. Unload removes
the hooks and sets the present flag.

The project has three modules:

- `PageWalk` (walk.dfy) models `pswap_virt_to_pte`. It is a pure function
  over page-table memory, in which each upper-level entry is `Empty` (none),
  `Bad`, or `Table(next)`. Pointers are addresses, and 0 is NULL.
- `Watch` (watch.dfy) holds the pure parts: the pte as a record
  `{present, frame, prot}`, the classification of a fault, the marked-rips
  table left by init, and the patched read page.
- `Pswap` (pswap.dfy) holds two classes:
  - `Context` is `struct pswap_context`, with `IsMarkedRip` as its
    loop over the 16-slot array.
  - `Driver` holds the module globals and the kernel state the hooks
    touch: the leaf ptes by address, the set of single-stepping tasks,
    the pending signals per task, and a ghost log of every `set_pte`,
    flush and hook installation or removal, in order. `Init`, `FaultHook`,
    `SignalHook` and `Exit` are its methods.

`Driver.Watching()` is the invariant while the watch is armed, across the
module's own actions (init, the two hooks). The hooks are installed. The
live entry is the exec or the read pte, present or not. The read page is the
patched copy of the exec page. The entry is present only while the tracked
task is single-stepping. `Init` establishes it when hook installation
succeeds, and both hooks preserve it. The target's own accesses between hook
calls are not steps of the model, so the read page stays the patched copy
only as far as the module itself is concerned.

Behaviour of the code that the model keeps as written:

- Only slot 0 of `marked_rips` is ever set, and the context is a
  zero-initialised static. So an instruction pointer of 0 is always a
  marked rip (`Watch.ZeroIpIsForcedRead`).
- The signal hook clears the present flag for the tracked task whether or
  not a step is outstanding. No active-step bookkeeping exists in the code.
- `Exit` sets the present flag on whichever backing is installed. When the
  last fault chose the read pte, the process keeps the patched kmalloc'd page
  mapped after unload. `Exit`'s contract states this.

## Model

| member | source | states |
|---|---|---|
| `PageWalk.VirtToPte` | driver/include/util.h:52-92 | a NULL task gives NULL; a returned pointer is never NULL; being a function over page-table memory, the walk writes nothing |
| `PageWalk.WalkCharacterised` | driver/include/util.h:66-91 | the walk returns `p` exactly when a chain of valid (neither none nor bad) pgd, p4d, pud and pmd entries leads from the task's root to the non-NULL slot `p`; each entry is found in the table the previous one links to, at the index `addr` selects for that level |
| `PageWalk.StopsAtInvalidLevel` | driver/include/util.h:66-84 | a walk that reaches an upper level whose entry is none or bad returns NULL |
| `Watch.StoreFirstRip` | driver/pswap.c:174 | storing the rip in slot 0 of the zeroed table gives the table init leaves, whose other fifteen slots are 0 |
| `Watch.InitialRipsMembership` | driver/pswap.c:174 | in the table init leaves, an address is marked exactly when it is the configured rip or 0 |
| `Watch.Classify` | driver/pswap.c:111-122 | forced read exactly when the ip is marked; instruction fetch exactly when it is not marked and the real address equals it; data read in every other case |
| `Watch.ExecBackingOnlyForFetch` | driver/pswap.c:111-122 | the exec pte is installed exactly when the ip is unmarked and equals the real address, so a marked ip gets the read pte even when the real address equals it |
| `Watch.ZeroIpIsForcedRead` | driver/pswap.c:111-114 | with the table init leaves, an instruction pointer of 0 is always classified as a forced read |
| `Watch.Backing` | driver/pswap.c:111-122 | the installed pte is always the read or the exec pte, and it is the exec pte exactly for an instruction fetch (or when the two ptes coincide) |
| `Watch.PatchedPage` | driver/pswap.c:198-202 | the read page has the exec page's length and equals it byte for byte except at offsets 341 to 344, which hold de ad be ef |
| `Pswap.FaultingPte` | driver/pswap.c:106 | `pte_offset_map` gives an 8-byte-aligned entry inside the 512-entry pte table the fault's pmd links to |
| `Pswap.FaultOnWalkedPte` | driver/pswap.c:106-107 | when the fault's pte table is the one the task's valid pgd, p4d, pud and pmd entries lead to, the faulting pte equals what `pswap_virt_to_pte` returns for the fault's address, so the hook's pointer comparison recognises the watched entry |
| `Pswap.Memcpy` | driver/pswap.c:198 | after the copy the destination holds the source bytes |
| `Pswap.FillReadPage` | driver/pswap.c:198-202 | the filled buffer is the patched copy of the exec page |
| `Pswap.Context.constructor` | driver/pswap.c:52-66 | the static context starts zeroed: NULL pte pointer, zero ptes, no read page, all 16 marked rips 0 |
| `Pswap.Context.MarkRip` | driver/pswap.c:174 | only slot 0 changes, to the rip; from the zeroed static the table becomes the one init leaves |
| `Pswap.Context.Capture` | driver/pswap.c:179-202 | the context records the watched address, the pte pointer, the exec pte read through it and the exec page, and gets a fresh read page holding the patched copy, mapped by a present shared-exec read pte |
| `Pswap.Context.IsMarkedRip` | driver/pswap.c:68-75 | returns 1 when some slot of the 16-slot table equals the address and 0 otherwise, scanning the whole table |
| `Pswap.Driver.constructor` | driver/pswap.c:89-90 | before init no task is tracked, no hooks are installed and the context is the zeroed static: no watched address, NULL pte pointer, zero ptes, no read page, no exec page, all 16 marked rips 0 |
| `Pswap.Driver.SetPte` | driver/pswap.c:205 | `set_pte` writes the given value at the given entry address and nothing else |
| `Pswap.Driver.FlushAll` | driver/include/util.h:40-43 | the TLB flush and cache invalidate broadcast is recorded as one flush event |
| `Pswap.Driver.Init` | driver/pswap.c:165-215 | stores the task, the rip in slot 0 and the walked pte pointer; writes the entry left by pinning the page (present) into the slot and captures it as the exec pte; makes the read pte present on the given frame with shared-exec protection; fills a fresh read page with the patched copy; clears only the present flag of the live entry, then flushes; returns the hook installation result; page tables, stepping and signals unchanged; on success the watch invariant holds |
| `Pswap.Driver.FaultHook` | driver/pswap.c:97-136 | handled exactly for the tracked task, a non-remote fault and the watched pte pointer; otherwise delegated with ptes, stepping and events untouched; when handled, the entry becomes the classified backing with present set (two writes then a flush), and the task is single-stepping; the watch invariant is preserved; a fetch then sees the exec page and any other access sees the read page |
| `Pswap.Driver.SignalHook` | driver/pswap.c:139-158 | handled exactly for the tracked task: only the present flag of the live entry is cleared (then a flush), single-step is disabled and SIGTRAP leaves the task's pending set; any other task is delegated with nothing changed; the watch invariant is preserved |
| `Pswap.Driver.Exit` | driver/pswap.c:217-224 | hooks removed first, then only the present flag of the live entry is set, then a flush; from an armed watch the entry ends present on the exec or the read backing, whichever was installed |

## Left out

- Symbol resolution (`rk_kallsyms_lookup_name`) and the pid lookup are foreign kernel calls. The pid lookup's result is `Init`'s `found` parameter.
- The ftrace hook machinery (`fh_install_hooks`, `fh_remove_hooks`, `pswap_hooks`) is not modelled. The hooks are plain methods. Installation is an input result plus a `hooked` flag and a log event.
- `vma_lookup` is not modelled: its result is stored but never used.
- `get_user_pages_remote`, `kmap`, `kmalloc`, `virt_to_phys` and `pfn_pte` are not modelled. The entry left by pinning, the exec page's bytes and the read page's frame are inputs. The unchecked failures of these calls are not modelled.
- The x86 encoding of `pte_t`, `_PAGE_PRESENT` and `PAGE_SHARED_EXEC` is not modelled. A pte is a record with a present flag, a frame and an abstract protection.
- The level macros are abstracted. The model always uses five levels with the x86-64 shifts 48, 39, 30, 21 and 12. Folding of the p4d level under four-level paging is not modelled.
- `pswap_invd`, `on_each_cpu` and `__flush_tlb_all` are cross-CPU hardware operations. The model keeps them only as one flush event.
- The target's own reads and writes between hook calls are not modelled. In the code a data write, classified as a read, lands in the read page, which `PAGE_SHARED_EXEC` makes writable (driver/pswap.c:192), so from then on the read page is no longer the patched copy; likewise `exec_virt_addr` is a live `kmap`, and the model keeps its bytes as captured at init.
- A delegated call runs the original `handle_pte_fault` or `arch_do_signal_or_restart`, which services the fault or delivers the signals; those kernel functions are not modelled, and the "unchanged" clauses of the hooks describe the hook's own actions only.
- Concurrency is not modelled. Each hook runs to completion as one step. Another CPU could observe the state between the fault hook's two `set_pte` writes; the model does not.
- Single-step and trap hardware are reduced to a set of stepping tasks. `recalc_sigpending` is reduced to the update of the pending set.
- `printk` logging is not modelled.
- `driver/pswap.mod.c` is generated module metadata and has no logic.
- Multi-thread targets, a registry of several pages and active-step tracking do not exist in this code.
- `Pswap.Driver.Init`: requires the pid lookup to have found a task and the walk to return a pte pointer, because the code dereferences both without a NULL check (driver/pswap.c:171-189); the failing cases are kernel NULL dereferences and are not modelled.
- `Pswap.Driver.Init`: `get_user_pages_remote` faults the page in before `exec_pte` is read (driver/pswap.c:187-189), so the entry it leaves is the input `pinned`, required present and equal to the old entry when that was already present; how the kernel chooses the frame of a newly faulted-in page is not modelled.
- `Pswap.Driver.Init`: requires `readFrame` to differ from the frame of the pinned entry, which stands for the kmalloc'd read page never being the pinned user page; allocation itself is not modelled.
- `Pswap.Driver.FaultHook`: the saved instruction pointer is an input, because `task_pt_regs` reads hardware state.
- `Pswap.Driver.FaultHook`: the faulting pte is computed from the pte table the fault's pmd entry links to. How the kernel obtained that pmd entry is not modelled.
