/**
 * The worker-count heuristic of compression/zstd/cpu_cores.go.
 * The environment variable ZSTD_WORKERS and the two host probes are inputs.
 */
module CpuCores {
  import opened Wrappers
  import opened Decimal

  /** Result of cpu.Counts(false): a physical core count or an error. */
  datatype CoreCount = Counted(cores: int) | CountError

  /** What the heuristic reads from its environment. */
  datatype Host = Host(zstdWorkers: string, physical: CoreCount, logicalCpus: int)

  /** ZSTD_WORKERS is honoured only when it is non-empty and parses to n > 0. */
  predicate ValidOverride(env: string)
  {
    env != "" && Atoi(env).Some? && Atoi(env).value > 0
  }

  function AtLeastOne(n: int): (m: int)
  {
    if n < 1 then 1 else n
  }

  /** GetOptimalWorkerCount: override, then 3/4 of the physical cores, then
      half of the logical CPUs, each clamped to at least one. */
  function GetOptimalWorkerCount(h: Host): (workers: int)
    ensures workers >= 1
    ensures ValidOverride(h.zstdWorkers) ==> Some(workers) == Atoi(h.zstdWorkers)
  {
    if ValidOverride(h.zstdWorkers) then Atoi(h.zstdWorkers).value
    else if h.physical.Counted? && h.physical.cores > 0 then AtLeastOne(h.physical.cores * 3 / 4)
    else AtLeastOne(h.logicalCpus / 2)
  }

  /** Any override that strconv.Atoi reads as a positive number is returned
      exactly, whatever the host: an optional '+' and leading zeros included. */
  lemma ParsedOverrideIsExact(sign: string, d: string, physical: CoreCount, logical: int)
    requires sign == "" || sign == "+"
    requires |d| >= 1 && AllDigits(d) && 0 < DigitsValue(d) <= MaxInt64
    ensures GetOptimalWorkerCount(Host(sign + d, physical, logical)) == DigitsValue(d)
  {
    AtoiSignedDigits(sign, d);
  }

  /** In particular the decimal text of n > 0 yields exactly n. */
  lemma OverrideIsExact(n: int, physical: CoreCount, logical: int)
    requires 0 < n <= MaxInt64
    ensures GetOptimalWorkerCount(Host(FormatInt(n), physical, logical)) == n
  {
    DigitsRoundTrip(n);
    ParsedOverrideIsExact("", Digits(n), physical, logical);
    assert "" + Digits(n) == FormatInt(n);
  }

  /** Non-canonical spellings that Atoi accepts are honoured too. */
  lemma NonCanonicalOverrides(physical: CoreCount, logical: int)
    ensures GetOptimalWorkerCount(Host("+4", physical, logical)) == 4
    ensures GetOptimalWorkerCount(Host("007", physical, logical)) == 7
  {
    assert DigitsValue("4") == 4 by { assert "4"[..0] == []; }
    ParsedOverrideIsExact("+", "4", physical, logical);
    assert "+" + "4" == "+4";
    assert DigitsValue("007") == 7 by {
      assert "007"[..2] == "00" && "00"[..1] == "0" && "0"[..0] == [];
    }
    ParsedOverrideIsExact("", "007", physical, logical);
    assert "" + "007" == "007";
  }

  /** An empty, unparsable, zero or negative override is the same as none. */
  lemma InvalidOverrideIgnored(env: string, physical: CoreCount, logical: int)
    requires !ValidOverride(env)
    ensures GetOptimalWorkerCount(Host(env, physical, logical))
         == GetOptimalWorkerCount(Host("", physical, logical))
  {
  }

  /** The values exercised by the package's own worker-count test. */
  lemma OverrideExamples(physical: CoreCount, logical: int)
    ensures GetOptimalWorkerCount(Host("4", physical, logical)) == 4
    ensures GetOptimalWorkerCount(Host("1", physical, logical)) == 1
    ensures GetOptimalWorkerCount(Host("0", physical, logical)) == GetOptimalWorkerCount(Host("", physical, logical))
    ensures GetOptimalWorkerCount(Host("-1", physical, logical)) == GetOptimalWorkerCount(Host("", physical, logical))
    ensures GetOptimalWorkerCount(Host("invalid", physical, logical)) == GetOptimalWorkerCount(Host("", physical, logical))
  {
    OverrideIsExact(4, physical, logical);
    OverrideIsExact(1, physical, logical);
    assert FormatInt(4) == "4" && FormatInt(1) == "1";
    assert Atoi("0") == Some(0) by {
      assert DigitsValue("0") == 0 by { assert "0"[..0] == []; }
    }
    assert Atoi("-1") == Some(-1) by {
      assert "-1"[1..] == "1";
      assert DigitsValue("1") == 1 by { assert "1"[..0] == []; }
    }
    assert !IsDigit("invalid"[0]);
  }

  /** With a usable physical count c and no override: floor(3c/4), never more than c. */
  lemma PhysicalCoresRule(h: Host)
    requires !ValidOverride(h.zstdWorkers)
    requires h.physical.Counted? && h.physical.cores > 0
    ensures var c := h.physical.cores;
      1 <= GetOptimalWorkerCount(h) <= c &&
      (c >= 2 ==> GetOptimalWorkerCount(h) == c * 3 / 4) &&
      (c == 1 ==> GetOptimalWorkerCount(h) == 1)
  {
    var c := h.physical.cores;
    assert c * 3 / 4 <= c;
    if c >= 2 {
      assert c * 3 >= 6;
    }
  }

  /** Without a usable physical count and no override: half the logical CPUs,
      at least one, and never more than the logical count when that is positive. */
  lemma LogicalCpusRule(h: Host)
    requires !ValidOverride(h.zstdWorkers)
    requires h.physical.CountError? || h.physical.cores <= 0
    ensures GetOptimalWorkerCount(h) == (if h.logicalCpus >= 2 then h.logicalCpus / 2 else 1)
    ensures h.logicalCpus >= 1 ==> GetOptimalWorkerCount(h) <= h.logicalCpus
  {
  }
}
