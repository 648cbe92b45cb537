/**
 configs/common/GPUTLBConfig.py and configs/example/apu_se.py: which coalescer and which Ruby port
 each compute unit of a GPU is wired to.
 */
module GpuWiring {
  import opened Arithmetic
  import opened Text

  /** A slave port of a coalescer. */
  datatype Slave = Slave(coalescer: nat, port: nat)

  // ----- instruction TLBs, shared by cu_per_sqc compute units each -----

  /** `ceil(n_cu / cu_per_sqc)` */
  function NumSqc(nCu: nat, cuPerSqc: nat): nat
    requires cuPerSqc > 0
  {
    (nCu + cuPerSqc - 1) / cuPerSqc
  }

  /** As many SQCs as the groups of cu_per_sqc units need, and no more. */
  lemma NumSqcIs(nCu: nat, cuPerSqc: nat)
    requires nCu > 0 && cuPerSqc > 0
    ensures (NumSqc(nCu, cuPerSqc) - 1) * cuPerSqc < nCu <= NumSqc(nCu, cuPerSqc) * cuPerSqc
  {
    DivMod(nCu + cuPerSqc - 1, cuPerSqc);
  }

  function SqcSlave(cu: nat, cuPerSqc: nat): Slave
    requires cuPerSqc > 0
  {
    Slave(cu / cuPerSqc, cu % cuPerSqc)
  }

  /** x / m is below the rounded-up quotient exactly for the x below n. */
  lemma BelowCeiling(x: nat, n: nat, m: nat)
    requires m > 0 && x < n
    ensures x / m < NumSqc(n, m) && (n > 0 ==> (n - 1) / m == NumSqc(n, m) - 1)
  {
    var q := (n - 1) / m;
    DivMod(n - 1, m);
    DivMod(n + m - 1, m);
    DivMod(x, m);
    QuotientUnique(n + m - 1, q + 1, m);
    if x / m > q {
      MulMonotone(q + 1, x / m, m);
    }
  }

  /** Every compute unit has an instruction TLB port of its own, on a coalescer that exists. */
  lemma SqcWiring(nCu: nat, cuPerSqc: nat, a: nat, b: nat)
    requires cuPerSqc > 0 && a < nCu && b < nCu
    ensures SqcSlave(a, cuPerSqc).coalescer < NumSqc(nCu, cuPerSqc)
    ensures SqcSlave(a, cuPerSqc).coalescer * cuPerSqc + SqcSlave(a, cuPerSqc).port == a
    ensures SqcSlave(a, cuPerSqc).port < cuPerSqc
    ensures SqcSlave(a, cuPerSqc) == SqcSlave(b, cuPerSqc) ==> a == b
  {
    BelowCeiling(a, nCu, cuPerSqc);
    DivMod(a, cuPerSqc);
    DivMod(b, cuPerSqc);
  }

  /** One Ruby port for each compute unit. */
  method AttachMemory(firstPort: nat, nCu: nat) returns (ports: seq<nat>, nextPort: nat)
    ensures |ports| == nCu && forall i :: 0 <= i < nCu ==> ports[i] == firstPort + i
    ensures nextPort == firstPort + nCu
  {
    nextPort, ports := firstPort, [];
    for i := 0 to nCu
      invariant nextPort == firstPort + i && |ports| == i
      invariant forall k :: 0 <= k < i ==> ports[k] == firstPort + k
    {
      ports := ports + [nextPort];
      nextPort := nextPort + 1;
    }
  }

  /** One Ruby port for each group of compute units that shares an SQC. */
  method AttachSqc(firstPort: nat, nCu: nat, cuPerSqc: nat) returns (ports: seq<nat>, nextPort: nat)
    requires nCu >= 1 && cuPerSqc >= 1
    ensures |ports| == nCu && forall i :: 0 <= i < nCu ==> ports[i] == firstPort + SqcSlave(i, cuPerSqc).coalescer
    ensures nextPort == firstPort + NumSqc(nCu, cuPerSqc)
  {
    nextPort, ports := firstPort, [];
    for i := 0 to nCu
      invariant |ports| == i && forall k :: 0 <= k < i ==> ports[k] == firstPort + SqcSlave(k, cuPerSqc).coalescer
      invariant nextPort == if i == 0 then firstPort else firstPort + SqcSlave(i - 1, cuPerSqc).coalescer
    {
      if i > 0 {
        DivNext(i - 1, cuPerSqc);
      }
      if i > 0 && i % cuPerSqc == 0 {
        nextPort := nextPort + 1;
      }
      ZeroDiv(cuPerSqc);
      ports := ports + [nextPort];
    }
    BelowCeiling(nCu - 1, nCu, cuPerSqc);
    nextPort := nextPort + 1;
  }

  lemma ZeroDiv(m: nat)
    requires m > 0
    ensures SqcSlave(0, m).coalescer == 0
  {
  }

  /** The walk over Ruby ports from the first one that belongs to the GPU. */
  method AttachPorts(firstPort: nat, nCu: nat, cuPerSqc: nat)
    returns (memoryPorts: seq<nat>, sqcPorts: seq<nat>, nextPort: nat)
    requires nCu >= 1 && cuPerSqc >= 1
    ensures |memoryPorts| == |sqcPorts| == nCu
    ensures forall i :: 0 <= i < nCu ==> memoryPorts[i] == firstPort + i
    ensures forall i :: 0 <= i < nCu ==> sqcPorts[i] == firstPort + nCu + i / cuPerSqc
    ensures nextPort == firstPort + nCu + NumSqc(nCu, cuPerSqc)
  {
    memoryPorts, nextPort := AttachMemory(firstPort, nCu);
    sqcPorts, nextPort := AttachSqc(nextPort, nCu, cuPerSqc);
  }

  lemma DivNext(i: nat, m: nat)
    requires m > 0
    ensures (i + 1) / m == i / m + if (i + 1) % m == 0 then 1 else 0
  {
    var q := i / m;
    DivMod(i, m);
    if i % m == m - 1 {
      assert (q + 1) * m == q * m + m;
      DivModUnique(i + 1, q + 1, m, 0);
    } else {
      DivModUnique(i + 1, q, m, i % m + 1);
    }
  }

  // ----- data TLBs -----

  datatype TlbConfig = PerLane | Mono | PerCU | TwoCU

  function NumTlbs(c: TlbConfig, nCu: nat): nat {
    match c
    case PerLane => 64 * nCu
    case Mono => 1
    case PerCU => nCu
    case TwoCU => nCu / 2
  }

  function TlbsPerCu(c: TlbConfig, nCu: nat): nat
    requires nCu > 0
  {
    NumTlbs(c, nCu) / nCu
  }

  /** The translation ports of a compute unit; without a TLB of its own it has one. */
  function PortsPerCu(c: TlbConfig, nCu: nat): nat
    requires nCu > 0
  {
    if TlbsPerCu(c, nCu) == 0 then 1 else TlbsPerCu(c, nCu)
  }

  /** What translation port t of a compute unit is wired to; `None` is the division by zero. */
  function L1Slave(c: TlbConfig, nCu: nat, cu: nat, t: nat): Option<Slave>
    requires nCu > 0 && cu < nCu && t < PortsPerCu(c, nCu)
  {
    var per := TlbsPerCu(c, nCu);
    if per > 0 then Some(Slave(cu * per + t, 0))
    else if NumTlbs(c, nCu) == 0 || nCu / NumTlbs(c, nCu) == 0 then None
    else
      var share := nCu / NumTlbs(c, nCu);
      Some(Slave(cu / share, cu % share))
  }

  /** Every translation port is wired, to a coalescer that exists. */
  ghost predicate AllWired(c: TlbConfig, nCu: nat)
    requires nCu > 0
  {
    forall cu, t | 0 <= cu < nCu && 0 <= t < PortsPerCu(c, nCu) ::
      L1Slave(c, nCu, cu, t).Some? && L1Slave(c, nCu, cu, t).value.coalescer < NumTlbs(c, nCu)
  }

  lemma PerCount(nCu: nat)
    requires nCu > 0
    ensures TlbsPerCu(PerLane, nCu) == 64 && TlbsPerCu(PerCU, nCu) == 1 && TlbsPerCu(TwoCU, nCu) == 0
    ensures TlbsPerCu(Mono, nCu) == if nCu == 1 then 1 else 0
  {
    QuotientUnique(64 * nCu, 64, nCu);
    QuotientUnique(nCu, 1, nCu);
    QuotientUnique(nCu / 2, 0, nCu);
    if nCu > 1 {
      QuotientUnique(1, 0, nCu);
    }
  }

  /**
   The wiring of each configuration: 64 TLBs for each unit, one for each unit, one for all units,
   and one for each pair of units.
   */
  lemma L1SlaveIs(nCu: nat, cu: nat, t: nat)
    requires cu < nCu
    ensures PortsPerCu(PerLane, nCu) == 64 && PortsPerCu(PerCU, nCu) == PortsPerCu(Mono, nCu) == 1
    ensures PortsPerCu(TwoCU, nCu) == 1
    ensures t < 64 ==> L1Slave(PerLane, nCu, cu, t) == Some(Slave(64 * cu + t, 0))
    ensures L1Slave(PerCU, nCu, cu, 0) == Some(Slave(cu, 0)) && L1Slave(Mono, nCu, cu, 0) == Some(Slave(0, cu))
    ensures L1Slave(TwoCU, nCu, cu, 0) ==
            if nCu == 1 then None else if nCu == 3 then Some(Slave(0, cu)) else Some(Slave(cu / 2, cu % 2))
  {
    PerCount(nCu);
    if nCu > 1 {
      QuotientUnique(nCu, nCu, 1);
      DivModUnique(cu, 0, nCu, cu);
      if nCu == 3 {
        DivModUnique(cu, 0, 3, cu);
      } else {
        QuotientUnique(nCu, 2, nCu / 2);
      }
    }
  }

  /** Two translation ports are never wired to the same coalescer port. */
  lemma L1Injective(c: TlbConfig, nCu: nat, a: nat, s: nat, b: nat, t: nat)
    requires nCu > 0 && a < nCu && s < PortsPerCu(c, nCu) && b < nCu && t < PortsPerCu(c, nCu)
    requires L1Slave(c, nCu, a, s).Some? && L1Slave(c, nCu, a, s) == L1Slave(c, nCu, b, t)
    ensures a == b && s == t
  {
    var per := TlbsPerCu(c, nCu);
    if per > 0 {
      QuotientUnique(a * per + s, a, per);
      QuotientUnique(b * per + t, b, per);
    } else {
      var share := nCu / NumTlbs(c, nCu);
      DivMod(a, share);
      DivMod(b, share);
    }
  }

  lemma ShareBound(cu: nat, share: nat, tlbs: nat)
    requires share > 0 && cu < share * tlbs
    ensures cu / share < tlbs
  {
    DivMod(cu, share);
    if cu / share >= tlbs {
      MulMonotone(tlbs, cu / share, share);
    }
  }

  /** Sharing one TLB between all or none of the units always works. */
  lemma SimpleConfigsWired(c: TlbConfig, nCu: nat)
    requires nCu > 0 && !c.TwoCU?
    ensures AllWired(c, nCu)
  {
    PerCount(nCu);
    forall cu, t | 0 <= cu < nCu && 0 <= t < PortsPerCu(c, nCu)
      ensures L1Slave(c, nCu, cu, t).Some? && L1Slave(c, nCu, cu, t).value.coalescer < NumTlbs(c, nCu)
    {
      if c.Mono? && nCu > 1 {
        QuotientUnique(nCu, nCu, 1);
        ShareBound(cu, nCu, 1);
      }
    }
  }

  /** Sharing one TLB between two units works exactly for an even number of units, and for three. */
  lemma TwoCuWired(nCu: nat)
    requires nCu > 0
    ensures AllWired(TwoCU, nCu) <==> nCu % 2 == 0 || nCu == 3
  {
    PerCount(nCu);
    var tlbs := nCu / 2;
    if nCu % 2 == 0 {
      QuotientUnique(nCu, 2, tlbs);
      forall cu | 0 <= cu < nCu ensures L1Slave(TwoCU, nCu, cu, 0).value.coalescer < tlbs {
        ShareBound(cu, 2, tlbs);
      }
    } else if nCu == 1 {
      assert L1Slave(TwoCU, nCu, 0, 0).None?;
    } else if nCu == 3 {
      forall cu | 0 <= cu < nCu ensures L1Slave(TwoCU, nCu, cu, 0).value.coalescer < tlbs {
        ShareBound(cu, 3, 1);
      }
    } else {
      QuotientUnique(nCu, 2, tlbs);
      assert L1Slave(TwoCU, nCu, nCu - 1, 0) == Some(Slave(tlbs, 0)) by {
        QuotientUnique(nCu - 1, tlbs, 2);
      }
    }
  }
}
