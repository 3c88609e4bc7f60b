/**
  The values the watchpoint of driver/pswap.c works with: the leaf page-table
  entry as a record, the marked-instruction-pointer table, the classification
  of a fault on the watched page and the content of the read page.
*/
module Watch {
  import opened PageWalk

  /** A physical page frame number. */
  type Frame = nat

  /** The protection bits of a pte other than the present flag. */
  datatype Prot = SharedExec | OtherProt(bits: nat)

  /** pte_t: the present flag, the frame it maps and its other protection bits. */
  datatype Pte = Pte(present: bool, frame: Frame, prot: Prot)

  /** The all-zero pte. */
  const ZeroPte: Pte := Pte(false, 0, OtherProt(0))

  /** The value of the leaf entry at address `p`; memory the map does not hold is zero. */
  function PteAt(ptes: map<Ptr, Pte>, p: Ptr): Pte {
    if p in ptes then ptes[p] else ZeroPte
  }

  type Signal = nat

  const SigTrap: Signal := 5

  /** The signals pending on `t`; a task the map does not hold has none. */
  function PendingOf(pending: map<Task, set<Signal>>, t: Task): set<Signal> {
    if t in pending then pending[t] else {}
  }

  const MaxMarkedRips: nat := 16
  const PageSize: nat := 4096

  /** The bytes written into the read page, and where. */
  const PatchOffset: nat := 341
  const Patch: seq<bv8> := [0xde, 0xad, 0xbe, 0xef]

  /** marked_rips of the zero-initialised static context. */
  const NoRips: seq<u64> := InitialRips(0)

  /** marked_rips after init stores the configured rip in slot 0 and nowhere else. */
  function InitialRips(rip: u64): seq<u64> {
    seq(MaxMarkedRips, i => if i == 0 then rip else 0)
  }

  /** Storing `rip` in slot 0 of the zeroed table gives the table init leaves. */
  lemma StoreFirstRip(rip: u64)
    ensures NoRips[0 := rip] == InitialRips(rip)
  {
  }

  /**
    An instruction pointer is marked in the table left by init exactly when
    it is the configured rip or 0: the other fifteen slots stay zero.
  */
  lemma {:induction false} InitialRipsMembership(rip: u64, ip: u64)
    ensures ip in InitialRips(rip) <==> ip == rip || ip == 0
  {
    var rips := InitialRips(rip);
    assert rips[0] == rip;
    if ip == 0 {
      assert rips[1] == 0;
    }
    if ip in rips {
      var i :| 0 <= i < |rips| && rips[i] == ip;
      assert rips[i] == if i == 0 then rip else 0;
    }
  }

  /** The kind of access a fault on the watched page is taken to be. */
  datatype AccessKind = ForcedRead | InstructionFetch | DataRead

  /**
    A marked instruction pointer wins; otherwise a fault whose real address
    is the instruction pointer is a fetch, and anything else a read.
  */
  function Classify(rips: seq<u64>, ip: u64, realAddress: u64): (kind: AccessKind)
    ensures kind == ForcedRead <==> ip in rips
    ensures kind == InstructionFetch <==> ip !in rips && realAddress == ip
    ensures kind == DataRead <==> ip !in rips && realAddress != ip
  {
    if ip in rips then ForcedRead
    else if realAddress == ip then InstructionFetch
    else DataRead
  }

  /** The pte installed for an access kind: exec_pte for a fetch, read_pte otherwise. */
  function Backing(kind: AccessKind, readPte: Pte, execPte: Pte): (b: Pte)
    ensures b == readPte || b == execPte
    ensures b == execPte <==> kind == InstructionFetch || readPte == execPte
  {
    if kind == InstructionFetch then execPte else readPte
  }

  /** The exec backing is chosen exactly for an unmarked fetch, whatever else holds. */
  lemma ExecBackingOnlyForFetch(rips: seq<u64>, ip: u64, realAddress: u64, readPte: Pte, execPte: Pte)
    requires readPte != execPte
    ensures Backing(Classify(rips, ip, realAddress), readPte, execPte) == execPte
            <==> ip !in rips && realAddress == ip
  {
  }

  /** With the table init leaves, an instruction pointer of 0 is always a forced read. */
  lemma {:induction false} ZeroIpIsForcedRead(rip: u64, realAddress: u64)
    ensures Classify(InitialRips(rip), 0, realAddress) == ForcedRead
  {
    InitialRipsMembership(rip, 0);
  }

  /** The read page: the exec page with the four patch bytes at offsets 341 to 344. */
  function PatchedPage(exec: seq<bv8>): (r: seq<bv8>)
    requires |exec| == PageSize
    ensures |r| == |exec|
    ensures forall i :: 0 <= i < |r| ==>
      r[i] == if PatchOffset <= i < PatchOffset + |Patch| then Patch[i - PatchOffset] else exec[i]
  {
    exec[..PatchOffset] + Patch + exec[PatchOffset + |Patch|..]
  }
}
