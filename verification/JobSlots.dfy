/** Machine-wide job slots of the CI runner: lock files shared by every ci process, and the
    share of the CPU and memory bounds that goes with a slot. */
module JobSlots {

  function Max(a: int, b: int): int {
    if a < b then b else a
  }

  /** Go's integer division, which drops the fraction towards zero. */
  function Quotient(a: int, b: int): int
    requires 0 < b
  {
    if 0 <= a then a / b else -(-a / b)
  }

  const PERIOD := 100000

  /** `CapJobs`: no more jobs than whole cores in the quota, and at least one. */
  function CapJobs(n: int, cpuQuota: int): int {
    var cores := Quotient(cpuQuota, PERIOD);
    Max(if 0 < cpuQuota && cores < n then cores else n, 1)
  }

  /** The settings every process on the machine runs with. */
  datatype Settings = Settings(workers: int, cpuQuota: int, memoryLimit: int) {
    /** `r.jobs`, the number of slots. */
    function Slots(): nat
      ensures 1 <= Slots()
    {
      CapJobs(workers, cpuQuota)
    }

    /** `jobCPUQuota`; 0 is no limit. */
    function JobCpu(): int {
      if cpuQuota <= 0 then 0 else Max(Quotient(cpuQuota, Slots()), 10000)
    }

    /** `jobMemoryLimit`; 0 is no limit. */
    function JobMemory(): int {
      if memoryLimit <= 0 then 0 else Quotient(memoryLimit, Slots())
    }
  }

  /** A job of a ci process: the process and its open lock file. */
  datatype Job = Job(process: nat, handle: nat)

  /** The kernel's view: which job holds which lock file. A job runs only while it does. */
  type Machine = map<nat, Job>

  datatype Step =
    | TryLock(slot: nat, job: Job)
    | Close(slot: nat)
    | Die(process: nat)

  /** `flock` without waiting fails on a held file; a process that ends drops its locks. */
  function Next(m: Machine, t: Step): Machine {
    match t
    case TryLock(slot, job) => if slot in m then m else m[slot := job]
    case Close(slot) => m - {slot}
    case Die(p) => map slot | slot in m && m[slot].process != p :: m[slot]
  }

  function End(m: Machine, run: seq<Step>): Machine
    decreases |run|
  {
    if run == [] then m else End(Next(m, run[0]), run[1..])
  }

  /** Every process only ever tries the lock files of its own pool. */
  predicate InPool(s: Settings, run: seq<Step>) {
    forall t :: t in run ==> t.TryLock? ==> t.slot < s.Slots()
  }

  /** CPU that running jobs may use together. */
  function CpuInUse(s: Settings, m: Machine): int {
    |m| * s.JobCpu()
  }

  function MemoryInUse(s: Settings, m: Machine): int {
    |m| * s.JobMemory()
  }

  /** There are as many slots as workers asked for, unless the quota has fewer whole cores; and one at least. */
  lemma SlotsAre(s: Settings, k: int)
    ensures s.cpuQuota <= 0 ==> (k <= s.Slots() <==> k <= 1 || k <= s.workers)
    ensures 0 < s.cpuQuota ==> (k <= s.Slots() <==> k <= 1 || (k <= s.workers && k * PERIOD <= s.cpuQuota))
  {
    var cores := s.cpuQuota / PERIOD;
    assert 1 <= k ==> (k <= cores <==> k * PERIOD <= s.cpuQuota);
  }

  /** Without a bound there is no limit for a job. */
  lemma Unbounded(s: Settings)
    ensures s.cpuQuota <= 0 ==> s.JobCpu() == 0
    ensures s.memoryLimit <= 0 ==> s.JobMemory() == 0
    ensures 0 < s.memoryLimit ==> s.JobMemory() == s.memoryLimit / s.Slots()
  {
  }

  /** A lock file that is free goes to whoever tries it. One that is held stays with its job until the job closes
      it or its process ends, and then it is free. */
  lemma LocksHold(m: Machine, t: Step, slot: nat)
    ensures var m' := Next(m, t);
            if t == Close(slot) || (slot in m && t == Die(m[slot].process)) then slot !in m'
            else if slot in m then slot in m' && m'[slot] == m[slot]
            else if t.TryLock? && t.slot == slot then slot in m' && m'[slot] == t.job
            else slot !in m'
  {
  }

  lemma {:induction false} SlotsStayInPool(s: Settings, m: Machine, run: seq<Step>)
    requires InPool(s, run) && forall slot :: slot in m ==> slot < s.Slots()
    ensures forall slot :: slot in End(m, run) ==> slot < s.Slots()
    decreases |run|
  {
    if run != [] {
      assert run[0] in run;
      assert forall t :: t in run[1..] ==> t in run;
      SlotsStayInPool(s, Next(m, run[0]), run[1..]);
    }
  }

  lemma {:induction false} BelowBound(slots: set<nat>, n: nat)
    requires forall slot :: slot in slots ==> slot < n
    ensures |slots| <= n
  {
    if n == 0 {
      assert slots == {};
    } else {
      BelowBound(slots - {n - 1}, n - 1);
    }
  }

  lemma SharesFit(total: int, n: nat, k: nat)
    requires 0 <= total && 0 < n && k <= n
    ensures k * (total / n) <= total
  {
    assert n * (total / n) <= total;
    Monotone(k, n, total / n);
  }

  lemma Monotone(k: nat, n: nat, x: nat)
    requires k <= n
    ensures k * x <= n * x
  {
    assert (n - k) * x >= 0;
    assert n * x == k * x + (n - k) * x;
  }

  /** One slot's CPU share: an equal part of the quota, unless the quota itself is below the
      smallest share a job can be given. */
  lemma CpuShare(s: Settings)
    requires 0 < s.cpuQuota
    ensures 10000 <= s.cpuQuota ==> s.JobCpu() == s.cpuQuota / s.Slots()
    ensures s.cpuQuota < 10000 ==> s.JobCpu() == 10000 && s.Slots() == 1
  {
    var n, cores := s.Slots(), s.cpuQuota / PERIOD;
    if PERIOD <= s.cpuQuota {
      assert n <= cores;
      SharesFit(s.cpuQuota, PERIOD, PERIOD);
      assert n * PERIOD <= s.cpuQuota;
      DivideAtLeast(s.cpuQuota, n, PERIOD);
    } else {
      assert n == 1;
      assert s.cpuQuota / n == s.cpuQuota;
    }
  }

  lemma DivideAtLeast(a: nat, n: nat, x: nat)
    requires 0 < n && n * x <= a
    ensures x <= a / n
  {
    if a / n < x {
      Monotone(a / n + 1, x, n);
    }
  }

  /** Over every interleaving of processes taking, releasing and dying, the jobs running at
      any time fit the CPU bound exactly when the bound is one a single job can be held to. */
  lemma CpuBoundHoldsIff(s: Settings)
    requires 0 < s.cpuQuota
    ensures (forall run :: InPool(s, run) ==> CpuInUse(s, End(map[], run)) <= s.cpuQuota) <==> 10000 <= s.cpuQuota
  {
    CpuShare(s);
    if 10000 <= s.cpuQuota {
      forall run | InPool(s, run)
        ensures CpuInUse(s, End(map[], run)) <= s.cpuQuota
      {
        AtMostSlotsHeld(s, run);
        SharesFit(s.cpuQuota, s.Slots(), |End(map[], run)|);
      }
    } else {
      var run := [TryLock(0, Job(0, 0))];
      assert run[1..] == [];
      assert End(map[], run) == Next(map[], run[0]) == map[0 := Job(0, 0)];
      assert InPool(s, run);
      assert CpuInUse(s, End(map[], run)) == 10000;
    }
  }

  lemma AtMostSlotsHeld(s: Settings, run: seq<Step>)
    requires InPool(s, run)
    ensures |End(map[], run)| <= s.Slots()
  {
    SlotsStayInPool(s, map[], run);
    BelowBound(End(map[], run).Keys, s.Slots());
  }

  /** Limits given to running jobs never add up to more than the memory bound. */
  lemma MemoryFits(s: Settings, run: seq<Step>)
    requires 0 < s.memoryLimit && InPool(s, run)
    ensures MemoryInUse(s, End(map[], run)) <= s.memoryLimit
  {
    AtMostSlotsHeld(s, run);
    SharesFit(s.memoryLimit, s.Slots(), |End(map[], run)|);
  }

  /** A share that rounds to 0 reads as no limit at all: every job is held to its part of the
      bound exactly when there is a byte for each slot. */
  lemma MemoryLimitedIff(s: Settings)
    requires 0 < s.memoryLimit
    ensures 0 < s.JobMemory() <==> s.Slots() <= s.memoryLimit
  {
    if s.Slots() <= s.memoryLimit {
      DivideAtLeast(s.memoryLimit, s.Slots(), 1);
    }
  }

  /** The lock table as other processes leave it at the j-th attempt. */
  type Others = nat -> Machine

  /** The j-th attempt and all before it could open their files, and those before it in vain. */
  ghost predicate InVain(others: Others, opens: nat -> bool, n: nat, j: nat)
    requires 1 <= n
  {
    forall i: nat :: i < j ==> opens(i) && i % n in others(i)
  }

  /** `Acquire`: try the files in turn; after a full round without luck wait, and try again
      until the context ends, after `rounds` rounds. A file that cannot be opened ends it at once.
      `waited` is how often onWait ran. */
  method Acquire(n: nat, job: Job, others: Others, opens: nat -> bool, rounds: nat)
    returns (slot: int, m: Machine, waited: nat, broken: bool)
    requires 1 <= n && 1 <= rounds
    ensures -1 <= slot < n && (broken ==> slot == -1)
    ensures 0 <= slot ==>
              exists j: nat :: j < rounds * n && InVain(others, opens, n, j) && opens(j)
                            && j % n == slot && slot !in others(j) && m == Next(others(j), TryLock(slot, job))
                            && waited == (if j < n then 0 else 1)
    ensures broken ==> exists j: nat :: j < rounds * n && InVain(others, opens, n, j) && !opens(j)
    ensures slot == -1 && !broken ==> waited == 1 && InVain(others, opens, n, rounds * n)
  {
    waited, m, broken := 0, map[], false;
    for round := 0 to rounds
      invariant InVain(others, opens, n, round * n)
      invariant waited == if round == 0 then 0 else 1
    {
      for i := 0 to n
        invariant InVain(others, opens, n, round * n + i)
      {
        var j := round * n + i;
        RoundIndex(round, rounds, n, i);
        if !opens(j) {
          return -1, m, waited, true;
        }
        m := others(j);
        if i !in m {
          slot, m := i, m[i := job];
          assert m == Next(others(j), TryLock(slot, job));
          return;
        }
      }
      assert (round + 1) * n == round * n + n;
      if waited == 0 {
        waited := 1; // onWait
      }
    }
    slot := -1;
  }

  lemma RoundIndex(round: nat, rounds: nat, n: nat, i: nat)
    requires i < n && round < rounds
    ensures (round * n + i) % n == i
    ensures round * n + i < rounds * n
    ensures round * n + i < n <==> round == 0
  {
    Monotone(round + 1, rounds, n);
    Remainder(round, n, i);
    if 0 < round {
      Monotone(1, round, n);
    }
  }

  lemma {:induction false} Remainder(q: nat, n: nat, i: nat)
    requires i < n
    ensures (q * n + i) % n == i
  {
    var x := q * n + i;
    assert x == (x / n) * n + x % n;
    if x / n < q {
      Monotone(x / n + 1, q, n);
    } else if q < x / n {
      Monotone(q + 1, x / n, n);
    }
  }
}
