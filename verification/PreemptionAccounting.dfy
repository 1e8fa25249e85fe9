/** What the printed preemption figures are worth, against the pods' true requests. */
module PreemptionAccounting {
  import opened Options
  import opened Text
  import opened Arithmetic
  import opened Decimal
  import opened Quantity
  import opened QuantityTexts
  import opened Pods
  import opened Preemption

  const UNKNOWN := PodInfo(0, 0.0, 0, 0, 0, 0, 0, 0)

  function Truth(cluster: Cluster, c: Candidate): PodInfo {
    if cluster(c.pod).Some? then cluster(c.pod).value else UNKNOWN
  }

  /** Candidates printed from what the cluster says; requests are never negative. */
  ghost predicate Genuine(cluster: Cluster, cs: seq<Candidate>, codec: Codec) {
    forall i :: 0 <= i < |cs| ==> GenuineOne(cluster, cs[i], codec)
  }

  predicate GenuineOne(cluster: Cluster, c: Candidate, codec: Codec) {
    var info := Truth(cluster, c);
    && c.requests == Amounts(codec.printCpu(info.cpu), codec.printMemory(info.memory), info.gpu,
                             info.read, info.write, info.iops)
    && CpuExact(info.cpu) && 0 <= info.cpu && 0 <= info.memory
  }

  function TrueCpu(cluster: Cluster, cs: seq<Candidate>): int {
    if cs == [] then 0 else TrueCpu(cluster, cs[..|cs| - 1]) + Truth(cluster, cs[|cs| - 1]).cpu
  }

  function TrueMemory(cluster: Cluster, cs: seq<Candidate>): int {
    if cs == [] then 0 else TrueMemory(cluster, cs[..|cs| - 1]) + Truth(cluster, cs[|cs| - 1]).memory
  }

  function TrueGpu(cluster: Cluster, cs: seq<Candidate>): int {
    if cs == [] then 0 else TrueGpu(cluster, cs[..|cs| - 1]) + Truth(cluster, cs[|cs| - 1]).gpu
  }

  function TrueSum(cluster: Cluster, cs: seq<Candidate>, f: PodInfo -> int): int {
    if cs == [] then 0 else TrueSum(cluster, cs[..|cs| - 1], f) + f(Truth(cluster, cs[|cs| - 1]))
  }

  function TrueRead(cluster: Cluster, cs: seq<Candidate>): int {
    TrueSum(cluster, cs, (info: PodInfo) => info.read)
  }

  function TrueWrite(cluster: Cluster, cs: seq<Candidate>): int {
    TrueSum(cluster, cs, (info: PodInfo) => info.write)
  }

  function TrueIops(cluster: Cluster, cs: seq<Candidate>): int {
    TrueSum(cluster, cs, (info: PodInfo) => info.iops)
  }

  /** The sum of the memory requests, each rounded down to its printed unit. */
  function RoundedMemory(cluster: Cluster, cs: seq<Candidate>): int {
    if cs == [] then 0 else RoundedMemory(cluster, cs[..|cs| - 1]) + Rounded(Truth(cluster, cs[|cs| - 1]).memory)
  }

  lemma {:induction false} TallyAgainstTruth(cluster: Cluster, cs: seq<Candidate>, codec: Codec)
    requires Genuine(cluster, cs, codec) && Faithful(codec)
    ensures var t := Tally(cs, codec);
            && t.cpu == TrueCpu(cluster, cs) >= 0 && t.gpu == TrueGpu(cluster, cs)
            && t.read == TrueRead(cluster, cs) && t.write == TrueWrite(cluster, cs) && t.iops == TrueIops(cluster, cs)
            && t.memory == RoundedMemory(cluster, cs)
            && 0 <= t.memory <= TrueMemory(cluster, cs) <= 2 * t.memory
  {
    if cs != [] {
      var c := cs[|cs| - 1];
      assert GenuineOne(cluster, c, codec);
      TallyAgainstTruth(cluster, cs[..|cs| - 1], codec);
      var info := Truth(cluster, c);
      assert ReadsCpu(codec, info.cpu) && ReadsMemory(codec, info.memory);
      RoundedBounds(info.memory);
    }
  }

  lemma ReadPrintedCpu(codec: Codec, n: int)
    requires Faithful(codec) && CpuExact(n)
    ensures codec.readCpu(codec.printCpu(n)) == n
  {
    assert ReadsCpu(codec, n);
  }

  lemma ReadPrintedMemory(codec: Codec, b: Int64)
    requires Faithful(codec)
    ensures codec.readMemory(codec.printMemory(b)) == Rounded(b)
  {
    assert ReadsMemory(codec, b);
  }

  /** Rounded twice: never above the truth, and off by less than a factor of four. */
  lemma TwiceRounded(once: int, truth: int)
    requires 0 <= once <= truth <= 2 * once
    ensures Rounded(once) <= truth && (truth > 0 ==> truth < 4 * Rounded(once))
  {
    RoundedBounds(once);
  }

  /** The reported CPU figure is exact. */
  lemma ReportedCpu(cluster: Cluster, gone: seq<Candidate>, codec: Codec)
    requires Faithful(codec) && Genuine(cluster, gone, codec) && CpuExact(TrueCpu(cluster, gone))
    ensures Reported(Cpu, gone, codec) == TrueCpu(cluster, gone)
  {
    TallyAgainstTruth(cluster, gone, codec);
    ReadPrintedCpu(codec, Tally(gone, codec).cpu);
  }

  /** So is the GPU figure. */
  lemma ReportedGpu(cluster: Cluster, gone: seq<Candidate>, codec: Codec)
    requires Faithful(codec) && Genuine(cluster, gone, codec)
    ensures Reported(Gpu, gone, codec) == TrueGpu(cluster, gone)
  {
    TallyAgainstTruth(cluster, gone, codec);
  }

  /** The reported memory figure is never too high, and off by less than a factor of four. */
  lemma {:induction false} ReportedMemory(cluster: Cluster, gone: seq<Candidate>, codec: Codec)
    requires Faithful(codec) && Genuine(cluster, gone, codec) && TrueMemory(cluster, gone) <= MAX_INT64
    ensures Reported(Memory, gone, codec) == Rounded(RoundedMemory(cluster, gone))
    ensures var m, truth := Reported(Memory, gone, codec), TrueMemory(cluster, gone);
            m <= truth && (truth > 0 ==> truth < 4 * m)
  {
    TallyAgainstTruth(cluster, gone, codec);
    var once := Tally(gone, codec).memory;
    ReadPrintedMemory(codec, once);
    TwiceRounded(once, TrueMemory(cluster, gone));
  }

  /** Requests within int64 that print without loss on the CPU side. */
  ghost predicate PlainRequests(cluster: Cluster, pods: seq<PodRef>) {
    forall pod :: pod in pods && cluster(pod).Some? ==>
      var info := cluster(pod).value; CpuExact(info.cpu) && 0 <= info.cpu && 0 <= info.memory
  }

  /** A selected round of victims and what became of them. */
  datatype Round = Round(req: Request, cluster: Cluster, pods: seq<PodRef>, candidates: seq<Candidate>,
                         victims: seq<Candidate>, evictable: PodRef -> bool)
  {
    function Evictions(): seq<Candidate> {
      Gone(victims, evictable)
    }
  }

  /** The round is one that RunPreemption can have gone through. */
  ghost predicate Played(r: Round, codec: Codec) {
    Selection(r.req, r.cluster, r.pods, r.candidates, r.victims, codec) && PlainRequests(r.cluster, r.pods)
  }

  lemma {:induction false} GoneIsGenuine(cluster: Cluster, victims: seq<Candidate>, ok: seq<bool>, codec: Codec)
    requires |ok| == |victims| && Genuine(cluster, victims, codec)
    ensures Genuine(cluster, Evicted(victims, ok), codec)
  {
    if victims != [] {
      var n := |victims| - 1;
      assert GenuineOne(cluster, victims[n], codec);
      forall i | 0 <= i < n ensures GenuineOne(cluster, victims[..n][i], codec) {
        assert GenuineOne(cluster, victims[i], codec);
      }
      GoneIsGenuine(cluster, victims[..n], ok[..n], codec);
    }
  }

  lemma PlayedIsGenuine(r: Round, codec: Codec)
    requires Played(r, codec)
    ensures Genuine(r.cluster, r.Evictions(), codec)
  {
    VictimsAreLowest(r.req, r.cluster, r.pods, r.candidates, |r.victims|, codec);
    forall i | 0 <= i < |r.victims| ensures GenuineOne(r.cluster, r.victims[i], codec) {
      assert r.candidates[i].pod in r.pods;
    }
    GoneIsGenuine(r.cluster, r.victims, Fates(r.victims, r.evictable), codec);
  }

  // ----- which pods are selected

  /** What evicting these candidates would free of a resource; for memory, of the rounded requests. */
  function Freed(t: ResourceType, cluster: Cluster, cs: seq<Candidate>): int {
    match t
    case Cpu => TrueCpu(cluster, cs)
    case Memory => RoundedMemory(cluster, cs)
    case Gpu => TrueGpu(cluster, cs)
    case Storage => TrueRead(cluster, cs) + TrueWrite(cluster, cs)
    case StorageIops => TrueIops(cluster, cs)
    case All => |cs|
  }

  lemma {:induction false} GatheredIsFreed(t: ResourceType, cluster: Cluster, cs: seq<Candidate>, codec: Codec)
    requires Genuine(cluster, cs, codec) && Faithful(codec)
    ensures Gathered(t, cs, codec) == Freed(t, cluster, cs)
    decreases |cs|
  {
    if cs != [] {
      var n := |cs| - 1;
      assert GenuineOne(cluster, cs[n], codec);
      GatheredIsFreed(t, cluster, cs[..n], codec);
      var info := Truth(cluster, cs[n]);
      ReadPrintedCpu(codec, info.cpu);
      ReadPrintedMemory(codec, info.memory);
    }
  }

  lemma CandidatesAreGenuine(r: Round, codec: Codec)
    requires Played(r, codec)
    ensures Genuine(r.cluster, r.candidates, codec)
  {
    VictimsAreLowest(r.req, r.cluster, r.pods, r.candidates, |r.victims|, codec);
    forall i | 0 <= i < |r.candidates| ensures GenuineOne(r.cluster, r.candidates[i], codec) {
      assert r.candidates[i].pod in r.pods;
    }
  }

  /** There is no reason to take more than the first k candidates: none are left, the limit is reached, or
      what they would free reaches the target. */
  predicate Suffices(r: Round, k: nat, target: int)
    requires k <= |r.candidates|
  {
    k == |r.candidates| || k >= r.req.maxPods || Freed(r.req.resourceType, r.cluster, r.candidates[..k]) >= target
  }

  /** The victims are exactly the shortest prefix of the candidates, by score, whose true requests suffice. */
  lemma VictimsReachTarget(r: Round, fp: FloatUnit)
    requires Played(r, GoCodec(fp))
    ensures var k, target := |r.victims|, Target(r.req, GoCodec(fp));
            && k <= |r.candidates| && Suffices(r, k, target)
            && forall j :: 0 <= j < k ==> r.victims[j].pod == r.candidates[j].pod && !Suffices(r, j, target)
  {
    var codec := GoCodec(fp);
    GoCodecIsFaithful(fp);
    CandidatesAreGenuine(r, codec);
    forall j | 0 <= j <= |r.victims|
      ensures Suffices(r, j, Target(r.req, codec)) <==> Stops(r.req, r.candidates, j, codec)
    {
      PrefixIsGenuine(r.cluster, r.candidates, j, codec);
      GatheredIsFreed(r.req.resourceType, r.cluster, r.candidates[..j], codec);
    }
  }

  lemma PrefixIsGenuine(cluster: Cluster, cs: seq<Candidate>, k: nat, codec: Codec)
    requires k <= |cs| && Genuine(cluster, cs, codec)
    ensures Genuine(cluster, cs[..k], codec)
  {
    forall i | 0 <= i < k ensures GenuineOne(cluster, cs[..k][i], codec) {
      assert GenuineOne(cluster, cs[i], codec);
    }
  }

  /** The target the controller works with is the amount the request's text denotes: GPUs and pods. */
  lemma TargetReadsNumber(req: Request, n: Int64, fp: FloatUnit)
    requires req.targetAmount == FormatInt(n)
    ensures req.resourceType.Gpu? || req.resourceType.All? ==> Target(req, GoCodec(fp)) == n
    ensures req.resourceType.Storage? || req.resourceType.StorageIops? ==> Target(req, GoCodec(fp)) == 0
  {
    ParseOfFormat(n);
  }

  /** Cores, or millicores with an m. */
  lemma TargetReadsCpu(req: Request, n: Int64, fp: FloatUnit)
    requires req.resourceType.Cpu?
    ensures req.targetAmount == FormatInt(n) + "m" ==> Target(req, GoCodec(fp)) == n
    ensures req.targetAmount == FormatInt(n) && 0 <= 1000 * n <= EXACT_FLOAT ==> Target(req, GoCodec(fp)) == 1000 * n
  {
    FormatEnds(n);
    CpuTextsRead(req.targetAmount, n, fp);
    if req.targetAmount == FormatInt(n) || req.targetAmount == FormatInt(n) + "m" {
      TrimmedStays(req.targetAmount);
    }
  }

  /** Bytes, in any unit the pattern knows. */
  lemma TargetReadsBytes(req: Request, number: string, spaces: string, unit: string, suffix: string, fp: FloatUnit)
    requires req.resourceType.Memory? && TrimSpace(req.targetAmount) == number + spaces + unit + suffix
    requires Written(number, spaces, unit, suffix) && AllDigits(number) && InExactRange(Value(number), unit)
    ensures Target(req, GoCodec(fp)) == if Exa(unit) then 0 else Value(number) * Worth(unit)
  {
    UnitsReadExactlyWhen(req.targetAmount, number, spaces, unit, suffix, fp);
  }

  // ----- what TargetAchieved means

  /** The flag of a completed job against the truth about the pods it evicted. */
  ghost predicate FairJudgement(achieved: bool, r: Round, codec: Codec) {
    var target, gone := Target(r.req, codec), r.Evictions();
    match r.req.resourceType
    case Cpu => achieved <==> target > 0 && TrueCpu(r.cluster, gone) >= target
    case Gpu => achieved <==> target > 0 && TrueGpu(r.cluster, gone) >= target
    case All => achieved <==> target > 0 && |gone| >= target
    case Memory =>
      && (achieved <==> target > 0 && RoundedMemory(r.cluster, gone) >= RoundedUp(target))
      && (achieved ==> TrueMemory(r.cluster, gone) >= target)
      && (0 < 4 * target <= TrueMemory(r.cluster, gone) ==> achieved)
    case Storage => !achieved
    case StorageIops => !achieved
  }

  /** The true sum of the targeted resource is one the arithmetic of the code holds. */
  predicate Representable(r: Round) {
    match r.req.resourceType
    case Cpu => CpuExact(TrueCpu(r.cluster, r.Evictions()))
    case Memory => TrueMemory(r.cluster, r.Evictions()) <= MAX_INT64
    case _ => true
  }

  /** A target that parses to nothing, or less, selects no victim and is never reported as achieved,
      though nothing freed would be enough. */
  lemma NothingToReach(req: Request, candidates: seq<Candidate>, k: nat, codec: Codec)
    requires IsVictimCount(req, candidates, k, codec) && Target(req, codec) <= 0
    ensures k == 0
  {
    assert candidates[..0] == [];
    assert Stops(req, candidates, 0, codec);
  }

  /** The flag of every completed job. For cpu, gpu and pods it says exactly that the target is positive
      and reached. For memory it is set exactly when the pods' rounded requests reach the target rounded
      up: never falsely, and always from four times the target. */
  lemma {:induction false} TargetJudgement(job: PreemptionJob, r: Round, fp: FloatUnit)
    requires r.req == job.request && PlainRequests(r.cluster, r.pods) && Representable(r)
    requires Finished(job, r.cluster, r.pods, r.candidates, r.victims, r.evictable, GoCodec(fp))
    ensures FairJudgement(job.targetAchieved, r, GoCodec(fp))
    ensures Target(r.req, GoCodec(fp)) <= 0 ==> r.victims == [] && !job.targetAchieved
  {
    GoCodecIsFaithful(fp);
    JudgementByCodec(job, r, GoCodec(fp));
  }

  lemma JudgementByCodec(job: PreemptionJob, r: Round, codec: Codec)
    requires r.req == job.request && PlainRequests(r.cluster, r.pods) && Representable(r) && Faithful(codec)
    requires Finished(job, r.cluster, r.pods, r.candidates, r.victims, r.evictable, codec)
    ensures FairJudgement(job.targetAchieved, r, codec)
    ensures Target(r.req, codec) <= 0 ==> r.victims == [] && !job.targetAchieved
  {
    if Target(r.req, codec) <= 0 {
      NothingToReach(r.req, r.candidates, |r.victims|, codec);
    }
    FlagIsReport(job, r, codec);
    PlayedIsGenuine(r, codec);
    ReportIsFair(r, codec);
  }

  /** The flag: a positive target, and a report that reaches it. */
  lemma FlagIsReport(job: PreemptionJob, r: Round, codec: Codec)
    requires r.req == job.request && Faithful(codec)
    requires Finished(job, r.cluster, r.pods, r.candidates, r.victims, r.evictable, codec)
    ensures job.targetAchieved <==>
            Target(r.req, codec) > 0 && Reported(r.req.resourceType, r.Evictions(), codec) >= Target(r.req, codec)
  {
    if Target(r.req, codec) <= 0 {
      NothingToReach(r.req, r.candidates, |r.victims|, codec);
    } else if r.victims == [] {
      NothingReported(r.req.resourceType, codec);
    }
  }

  lemma NothingReported(t: ResourceType, codec: Codec)
    requires Faithful(codec)
    ensures Reported(t, [], codec) == 0
  {
    ReadPrintedCpu(codec, 0);
    ReadPrintedMemory(codec, 0);
  }

  lemma ReportIsFair(r: Round, codec: Codec)
    requires Faithful(codec) && Genuine(r.cluster, r.Evictions(), codec) && Representable(r)
    ensures var target := Target(r.req, codec);
            FairJudgement(target > 0 && Reported(r.req.resourceType, r.Evictions(), codec) >= target, r, codec)
  {
    match r.req.resourceType
    case Cpu =>
      ReportedCpu(r.cluster, r.Evictions(), codec);
    case Gpu =>
      ReportedGpu(r.cluster, r.Evictions(), codec);
    case Memory =>
      ReportedMemory(r.cluster, r.Evictions(), codec);
      RoundingAdjoint(RoundedMemory(r.cluster, r.Evictions()), Target(r.req, codec));
    case _ =>
  }

  /** Inputs on which nothing freed would reach the target, yet the job does not say so: a zero, a word,
      and exbibytes, all of which the controller accepts. */
  lemma EmptyTargets(req: Request, fp: FloatUnit)
    requires || (req.resourceType.Gpu? && (req.targetAmount == "0" || req.targetAmount == "two"))
             || (req.resourceType.Memory? && req.targetAmount == "1Ei")
    ensures Target(req, GoCodec(fp)) == 0
  {
    assert !IsDigit("two"[0]);
    assert "0"[..0] == "" && Value("0") == 0;
    if req.resourceType.Memory? {
      OneExbibyte(fp);
    }
  }

  /** On such a request the plain comparison and the flag part: the GPUs freed, none, reach the target. */
  lemma FlagDiffersFromComparison(job: PreemptionJob, r: Round, fp: FloatUnit)
    requires r.req == job.request && r.req.resourceType.Gpu?
    requires r.req.targetAmount == "0" || r.req.targetAmount == "two"
    requires Finished(job, r.cluster, r.pods, r.candidates, r.victims, r.evictable, GoCodec(fp))
    ensures !job.targetAchieved && TrueGpu(r.cluster, r.Evictions()) >= Target(r.req, GoCodec(fp))
  {
    EmptyTargets(r.req, fp);
    NothingToReach(r.req, r.candidates, |r.victims|, GoCodec(fp));
  }

  lemma OneExbibyte(fp: FloatUnit)
    ensures ParseMemory("1Ei", fp) == 0
  {
    DigitOne();
    assert "1" + "" + "Ei" + "" == "1Ei";
    TrimmedStays("1Ei");
    UnitsReadExactlyWhen("1Ei", "1", "", "Ei", "", fp);
  }

  lemma DigitOne()
    ensures AllDigits("1") && Value("1") == 1
  {
    assert "1"[..0] == "" && Value("") == 0;
  }

  // ----- the global totals over any sequence of jobs

  /** The totals after a sequence of jobs. */
  function Totalled(rounds: seq<Round>, codec: Codec): Global
    decreases |rounds|
  {
    if rounds == [] then START
    else
      var r := rounds[|rounds| - 1];
      AfterJob(Totalled(rounds[..|rounds| - 1], codec), r.victims, r.evictable, codec)
  }

  function CpuOf(r: Round): int {
    TrueCpu(r.cluster, r.Evictions())
  }

  function MemoryOf(r: Round): int {
    TrueMemory(r.cluster, r.Evictions())
  }

  function GpuOf(r: Round): int {
    TrueGpu(r.cluster, r.Evictions())
  }

  /** The memory a job freed, each pod's request rounded to its printed unit. */
  function AmountOf(r: Round): int {
    RoundedMemory(r.cluster, r.Evictions())
  }

  function Each(rounds: seq<Round>, f: Round -> int): (xs: seq<int>)
    ensures |xs| == |rounds| && forall i :: 0 <= i < |xs| ==> xs[i] == f(rounds[i])
  {
    seq(|rounds|, i requires 0 <= i < |rounds| => f(rounds[i]))
  }

  function Cpus(rounds: seq<Round>): seq<int> {
    Each(rounds, r => CpuOf(r))
  }

  function Memories(rounds: seq<Round>): seq<int> {
    Each(rounds, r => MemoryOf(r))
  }

  function Gpus(rounds: seq<Round>): seq<int> {
    Each(rounds, r => GpuOf(r))
  }

  function RoundedMemories(rounds: seq<Round>): seq<int> {
    Each(rounds, r => AmountOf(r))
  }

  ghost predicate AllPlayed(rounds: seq<Round>, codec: Codec) {
    forall i :: 0 <= i < |rounds| ==> Played(rounds[i], codec)
  }

  /** Sums within what float64 (for cores) and int64 hold. */
  predicate InReach(rounds: seq<Round>) {
    Sum(Cpus(rounds)) <= EXACT_FLOAT && Sum(Memories(rounds)) <= MAX_INT64
  }

  datatype Readings = Readings(cpu: int, gpu: int, memory: int)

  /** What the totals read as. */
  function Read(g: Global, codec: Codec): Readings {
    Readings(codec.readCpu(g.cpu), g.gpu, codec.readMemory(g.memory))
  }

  /** What a job adds to the readings. */
  function Next(x: Readings, r: Round): Readings {
    Readings(x.cpu + CpuOf(r), x.gpu + GpuOf(r), Rounded(x.memory + AmountOf(r)))
  }

  function Expected(rounds: seq<Round>): Readings
    decreases |rounds|
  {
    if rounds == [] then Readings(0, 0, 0) else Next(Expected(rounds[..|rounds| - 1]), rounds[|rounds| - 1])
  }

  lemma RoundFacts(r: Round, codec: Codec)
    requires Faithful(codec) && Played(r, codec)
    ensures CpuOf(r) >= 0 && 0 <= AmountOf(r) <= MemoryOf(r)
  {
    PlayedIsGenuine(r, codec);
    TallyAgainstTruth(r.cluster, r.Evictions(), codec);
  }

  lemma AllFacts(rounds: seq<Round>, codec: Codec)
    requires Faithful(codec) && AllPlayed(rounds, codec)
    ensures NonNegative(Cpus(rounds)) && NonNegative(RoundedMemories(rounds)) && NonNegative(Memories(rounds))
    ensures forall i :: 0 <= i < |rounds| ==> RoundedMemories(rounds)[i] <= Memories(rounds)[i]
  {
    forall i | 0 <= i < |rounds| ensures CpuOf(rounds[i]) >= 0 && 0 <= AmountOf(rounds[i]) <= MemoryOf(rounds[i]) {
      RoundFacts(rounds[i], codec);
    }
  }

  lemma EachAppend(rounds: seq<Round>, more: seq<Round>, f: Round -> int)
    ensures Each(rounds + more, f) == Each(rounds, f) + Each(more, f)
    ensures Sum(Each(rounds + more, f)) == Sum(Each(rounds, f)) + Sum(Each(more, f))
  {
    assert Each(rounds + more, f) == Each(rounds, f) + Each(more, f);
    SumAppend(Each(rounds, f), Each(more, f));
  }

  lemma PlayedApart(rounds: seq<Round>, more: seq<Round>, codec: Codec)
    requires AllPlayed(rounds + more, codec)
    ensures AllPlayed(rounds, codec) && AllPlayed(more, codec)
  {
    forall i | 0 <= i < |rounds| ensures Played(rounds[i], codec) {
      assert rounds[i] == (rounds + more)[i];
    }
    forall i | 0 <= i < |more| ensures Played(more[i], codec) {
      assert more[i] == (rounds + more)[|rounds| + i];
    }
  }

  lemma SumsApart(rounds: seq<Round>, more: seq<Round>)
    requires NonNegative(Cpus(more)) && NonNegative(Memories(more))
    ensures InReach(rounds + more) ==> InReach(rounds)
  {
    EachAppend(rounds, more, r => CpuOf(r));
    EachAppend(rounds, more, r => MemoryOf(r));
    SumNonNegative(Cpus(more));
    SumNonNegative(Memories(more));
  }

  lemma PrefixInReach(rounds: seq<Round>, more: seq<Round>, codec: Codec)
    requires Faithful(codec) && AllPlayed(rounds + more, codec) && InReach(rounds + more)
    ensures AllPlayed(rounds, codec) && AllPlayed(more, codec) && InReach(rounds)
  {
    PlayedApart(rounds, more, codec);
    AllFacts(more, codec);
    SumsApart(rounds, more);
  }

  /** The readings, as sums over the jobs. */
  lemma ExpectedSums(rounds: seq<Round>)
    ensures Expected(rounds) == Readings(Sum(Cpus(rounds)), Sum(Gpus(rounds)), Kept(RoundedMemories(rounds)))
  {
    ExpectedCpu(rounds);
    ExpectedGpu(rounds);
    ExpectedMemory(rounds);
  }

  lemma {:induction false} ExpectedCpu(rounds: seq<Round>)
    ensures Expected(rounds).cpu == Sum(Cpus(rounds))
    decreases |rounds|
  {
    if rounds != [] {
      ExpectedCpu(rounds[..|rounds| - 1]);
      EachPrefix(rounds, r => CpuOf(r));
    }
  }

  lemma {:induction false} ExpectedGpu(rounds: seq<Round>)
    ensures Expected(rounds).gpu == Sum(Gpus(rounds))
    decreases |rounds|
  {
    if rounds != [] {
      ExpectedGpu(rounds[..|rounds| - 1]);
      EachPrefix(rounds, r => GpuOf(r));
    }
  }

  lemma {:induction false} ExpectedMemory(rounds: seq<Round>)
    ensures Expected(rounds).memory == Kept(RoundedMemories(rounds))
    decreases |rounds|
  {
    if rounds != [] {
      ExpectedMemory(rounds[..|rounds| - 1]);
      EachPrefix(rounds, r => AmountOf(r));
    }
  }

  lemma EachPrefix(rounds: seq<Round>, f: Round -> int)
    requires rounds != []
    ensures var n, xs := |rounds| - 1, Each(rounds, f);
            && xs[..n] == Each(rounds[..n], f) && xs[n] == f(rounds[n])
            && Sum(xs) == Sum(Each(rounds[..n], f)) + f(rounds[n])
            && Kept(xs) == Rounded(Kept(Each(rounds[..n], f)) + f(rounds[n]))
  {
    var n, xs := |rounds| - 1, Each(rounds, f);
    assert xs[..n] == Each(rounds[..n], f);
  }

  /** The next addition stays within what the code's arithmetic holds. */
  predicate Fits(x: Readings, r: Round) {
    && 0 <= x.cpu && x.cpu + CpuOf(r) <= EXACT_FLOAT
    && 0 <= x.memory && Prints(x.memory) && x.memory + AmountOf(r) <= MAX_INT64
  }

  lemma KeptFits(rounds: seq<Round>, codec: Codec)
    requires Faithful(codec) && AllPlayed(rounds, codec)
    ensures NonNegative(RoundedMemories(rounds))
    ensures 0 <= Kept(RoundedMemories(rounds)) <= Sum(RoundedMemories(rounds)) <= Sum(Memories(rounds))
    ensures Prints(Kept(RoundedMemories(rounds))) && 0 <= Sum(Cpus(rounds))
  {
    AllFacts(rounds, codec);
    KeptBounds(RoundedMemories(rounds));
    SumNonNegative(Cpus(rounds));
    SumsCompare(RoundedMemories(rounds), Memories(rounds));
  }

  lemma NextFits(rounds: seq<Round>, codec: Codec)
    requires Faithful(codec) && rounds != [] && AllPlayed(rounds, codec) && InReach(rounds)
    ensures var prior := rounds[..|rounds| - 1];
            AllPlayed(prior, codec) && InReach(prior) && Fits(Expected(prior), rounds[|rounds| - 1])
  {
    var prior, r := rounds[..|rounds| - 1], rounds[|rounds| - 1];
    Rejoined(rounds);
    PrefixInReach(prior, [r], codec);
    OneMore(prior, r, x => CpuOf(x));
    OneMore(prior, r, x => MemoryOf(x));
    KeptFits(prior, codec);
    RoundFacts(r, codec);
    ExpectedSums(prior);
  }

  lemma Rejoined<T>(s: seq<T>)
    requires s != []
    ensures s[..|s| - 1] + [s[|s| - 1]] == s
  {
  }

  lemma OneMore(prior: seq<Round>, r: Round, f: Round -> int)
    ensures Sum(Each(prior + [r], f)) == Sum(Each(prior, f)) + f(r)
  {
    assert Each(prior + [r], f)[..|prior|] == Each(prior, f);
  }

  /** The readings after one job, from readings that fit. */
  lemma NextReadings(g: Global, r: Round, codec: Codec)
    requires Faithful(codec) && Genuine(r.cluster, r.Evictions(), codec) && Fits(Read(g, codec), r)
    ensures Read(AfterJob(g, r.victims, r.evictable, codec), codec) == Next(Read(g, codec), r)
  {
    TallyAgainstTruth(r.cluster, r.Evictions(), codec);
    if r.victims != [] {
      ReadPrintedCpu(codec, codec.readCpu(g.cpu) + CpuOf(r));
      ReadPrintedMemory(codec, codec.readMemory(g.memory) + AmountOf(r));
    }
  }

  lemma {:induction false} TotalsRead(rounds: seq<Round>, codec: Codec)
    requires Faithful(codec) && AllPlayed(rounds, codec) && InReach(rounds)
    ensures Read(Totalled(rounds, codec), codec) == Expected(rounds)
    decreases |rounds|
  {
    if rounds != [] {
      var prior, r := rounds[..|rounds| - 1], rounds[|rounds| - 1];
      NextFits(rounds, codec);
      TotalsRead(prior, codec);
      PlayedIsGenuine(r, codec);
      NextReadings(Totalled(prior, codec), r, codec);
    }
  }

  /** The CPU total reads as the exact sum. The memory total reads as a sum rounded after every job: it
      never exceeds the true sum, and no further job makes it fall. */
  ghost predicate FairTotals(rounds: seq<Round>, codec: Codec) {
    var m := codec.readMemory(Totalled(rounds, codec).memory);
    && Read(Totalled(rounds, codec), codec)
       == Readings(Sum(Cpus(rounds)), Sum(Gpus(rounds)), Kept(RoundedMemories(rounds)))
    && 0 <= m <= Sum(Memories(rounds)) && Prints(m)
    && (rounds != [] ==> codec.readMemory(Totalled(rounds[..|rounds| - 1], codec).memory) <= m)
  }

  lemma {:induction false} TotalsOverRuns(rounds: seq<Round>, fp: FloatUnit)
    requires AllPlayed(rounds, GoCodec(fp)) && InReach(rounds)
    ensures FairTotals(rounds, GoCodec(fp))
  {
    GoCodecIsFaithful(fp);
    TotalsByCodec(rounds, GoCodec(fp));
  }

  lemma TotalsByCodec(rounds: seq<Round>, codec: Codec)
    requires Faithful(codec) && AllPlayed(rounds, codec) && InReach(rounds)
    ensures FairTotals(rounds, codec)
  {
    TotalsRead(rounds, codec);
    ExpectedSums(rounds);
    KeptFits(rounds, codec);
    if rounds != [] {
      Rejoined(rounds);
      MovesByCodec(rounds[..|rounds| - 1], [rounds[|rounds| - 1]], codec);
    }
  }

  // ----- when the memory total keeps up

  /** Every memory request of the pods prints without loss. */
  ghost predicate WholeRequests(cluster: Cluster, cs: seq<Candidate>) {
    forall i :: 0 <= i < |cs| ==> Prints(Truth(cluster, cs[i]).memory)
  }

  lemma {:induction false} RequestsExactWhen(cluster: Cluster, cs: seq<Candidate>)
    ensures RoundedMemory(cluster, cs) <= TrueMemory(cluster, cs)
    ensures RoundedMemory(cluster, cs) == TrueMemory(cluster, cs) <==> WholeRequests(cluster, cs)
    decreases |cs|
  {
    if cs != [] {
      var n := |cs| - 1;
      RequestsExactWhen(cluster, cs[..n]);
      RoundedBounds(Truth(cluster, cs[n]).memory);
      assert forall i :: 0 <= i < n ==> cs[..n][i] == cs[i];
    }
  }

  ghost predicate AllWhole(rounds: seq<Round>) {
    forall i :: 0 <= i < |rounds| ==> WholeRequests(rounds[i].cluster, rounds[i].Evictions())
  }

  lemma AmountsExactWhen(rounds: seq<Round>)
    ensures Sum(RoundedMemories(rounds)) <= Sum(Memories(rounds))
    ensures Sum(RoundedMemories(rounds)) == Sum(Memories(rounds)) <==> AllWhole(rounds)
  {
    forall i | 0 <= i < |rounds|
      ensures RoundedMemories(rounds)[i] <= Memories(rounds)[i]
      ensures RoundedMemories(rounds)[i] == Memories(rounds)[i] <==>
              WholeRequests(rounds[i].cluster, rounds[i].Evictions())
    {
      RequestsExactWhen(rounds[i].cluster, rounds[i].Evictions());
    }
    SumsCompare(RoundedMemories(rounds), Memories(rounds));
  }

  /** The memory total is the true sum exactly when every evicted pod's request and every partial sum over
      the jobs prints without loss. */
  lemma MemoryTotalExactlyWhen(rounds: seq<Round>, fp: FloatUnit)
    requires AllPlayed(rounds, GoCodec(fp)) && InReach(rounds)
    ensures GoCodec(fp).readMemory(Totalled(rounds, GoCodec(fp)).memory) == Sum(Memories(rounds)) <==>
            AllWhole(rounds) && PartialSumsPrint(RoundedMemories(rounds))
  {
    GoCodecIsFaithful(fp);
    TotalsRead(rounds, GoCodec(fp));
    ExpectedSums(rounds);
    KeptFits(rounds, GoCodec(fp));
    AmountsExactWhen(rounds);
    KeptExactlyWhen(RoundedMemories(rounds));
  }

  /** After any run, further jobs move the memory total exactly when one of them by itself frees at least
      the unit the total is then printed in. However many jobs free less, the total stays where it is. */
  lemma MemoryTotalMovesExactlyWhen(rounds: seq<Round>, more: seq<Round>, fp: FloatUnit)
    requires AllPlayed(rounds + more, GoCodec(fp)) && InReach(rounds + more)
    ensures var codec := GoCodec(fp);
            var before := codec.readMemory(Totalled(rounds, codec).memory);
            var after := codec.readMemory(Totalled(rounds + more, codec).memory);
            before <= after && (after > before <==> HasUnit(RoundedMemories(more), UnitOf(before)))
  {
    GoCodecIsFaithful(fp);
    MovesByCodec(rounds, more, GoCodec(fp));
  }

  lemma MovesByCodec(rounds: seq<Round>, more: seq<Round>, codec: Codec)
    requires Faithful(codec) && AllPlayed(rounds + more, codec) && InReach(rounds + more)
    ensures var before := codec.readMemory(Totalled(rounds, codec).memory);
            var after := codec.readMemory(Totalled(rounds + more, codec).memory);
            before <= after && (after > before <==> HasUnit(RoundedMemories(more), UnitOf(before)))
  {
    PrefixInReach(rounds, more, codec);
    TotalsRead(rounds, codec);
    TotalsRead(rounds + more, codec);
    ExpectedSums(rounds);
    ExpectedSums(rounds + more);
    AllFacts(rounds, codec);
    AllFacts(more, codec);
    EachAppend(rounds, more, r => AmountOf(r));
    KeptMovesExactlyWhen(RoundedMemories(rounds), RoundedMemories(more));
  }

  const WORKER := PodRef("jobs", "worker")

  /** A job asked to free one pod, on a node whose only pod requests b bytes. */
  function OnePod(b: Int64, codec: Codec): Round {
    var req := Request(All, "1", 1, 1, "", []);
    var c := CandidateOf(WORKER, PodInfo(0, 0.0, 0, b, 0, 0, 0, 0), codec);
    Round(req, _ => Some(PodInfo(0, 0.0, 0, b, 0, 0, 0, 0)), [WORKER], [c], [c.(selected := true)], _ => true)
  }

  lemma OnePodIsPlayed(b: Int64, codec: Codec)
    requires b >= 0
    ensures Played(OnePod(b, codec), codec)
  {
    var r := OnePod(b, codec);
    assert r.pods[..0] == [] && Candidates(r.req, r.cluster, [], codec) == [];
    assert r.candidates == Candidates(r.req, r.cluster, r.pods, codec);
    assert r.candidates[..0] == [];
    assert Target(r.req, codec) == 1 by {
      DigitOne();
    }
    assert !Stops(r.req, r.candidates, 0, codec);
  }

  lemma OnePodFrees(b: Int64, codec: Codec)
    ensures var r := OnePod(b, codec); CpuOf(r) == 0 && MemoryOf(r) == b && AmountOf(r) == Rounded(b)
  {
    var r := OnePod(b, codec);
    var ok := Fates(r.victims, r.evictable);
    assert ok == [true] && Evicted(r.victims[..0], ok[..0]) == [];
    var gone := r.Evictions();
    assert gone == r.victims && gone[..0] == [];
    assert Truth(r.cluster, gone[0]) == PodInfo(0, 0.0, 0, b, 0, 0, 0, 0);
    assert TrueCpu(r.cluster, gone[..0]) == TrueMemory(r.cluster, gone[..0]) == 0;
    assert RoundedMemory(r.cluster, gone[..0]) == 0;
  }

  /** One job that frees a tebibyte, then n jobs that free a gibibyte each. */
  function BigThenSmall(n: nat, codec: Codec): (rounds: seq<Round>)
    ensures |rounds| == n + 1 && rounds[0] == OnePod(TI, codec)
    ensures forall i :: 0 < i <= n ==> rounds[i] == OnePod(GI, codec)
  {
    [OnePod(TI, codec)] + seq(n, _ => OnePod(GI, codec))
  }

  /** What the memory total loses has no bound short of int64's: after a job that frees a tebibyte, any
      number of jobs that free a gibibyte each leave it where it is. */
  lemma {:induction false} LossHasNoBound(n: nat, fp: FloatUnit)
    requires TI + n * GI <= MAX_INT64
    ensures var codec := GoCodec(fp); var rounds := BigThenSmall(n, codec);
            && AllPlayed(rounds, codec) && InReach(rounds) && Sum(Memories(rounds)) == TI + n * GI
            && codec.readMemory(Totalled(rounds, codec).memory) == TI
  {
    var codec := GoCodec(fp);
    var rounds := BigThenSmall(n, codec);
    BigThenSmallPlayed(n, codec);
    BigThenSmallFrees(n, codec);
    NothingAddsUp(Cpus(rounds));
    TebibyteStays(n);
    TotalsOverRuns(rounds, fp);
  }

  lemma BigThenSmallPlayed(n: nat, codec: Codec)
    ensures AllPlayed(BigThenSmall(n, codec), codec)
  {
    OnePodIsPlayed(TI, codec);
    OnePodIsPlayed(GI, codec);
  }

  lemma BigThenSmallFrees(n: nat, codec: Codec)
    ensures var rounds := BigThenSmall(n, codec);
            && Memories(rounds) == RoundedMemories(rounds) == [TI] + Gibibytes(n)
            && forall i :: 0 <= i <= n ==> Cpus(rounds)[i] == 0
  {
    OnePodFrees(TI, codec);
    OnePodFrees(GI, codec);
  }

  lemma {:induction false} NothingAddsUp(xs: seq<int>)
    requires forall i :: 0 <= i < |xs| ==> xs[i] == 0
    ensures Sum(xs) == 0
    decreases |xs|
  {
    if xs != [] {
      NothingAddsUp(xs[..|xs| - 1]);
    }
  }

  lemma TebibyteStays(n: nat)
    ensures Kept([TI] + Gibibytes(n)) == TI && Sum([TI] + Gibibytes(n)) == TI + n * GI
  {
    GibibytesSum(n);
    SumAppend([TI], Gibibytes(n));
    assert [TI][..0] == [];
    assert Kept([TI]) == Rounded(TI) == TI && Sum([TI]) == TI;
    KeptMovesExactlyWhen([TI], Gibibytes(n));
  }

  function Gibibytes(n: nat): (xs: seq<int>)
    ensures |xs| == n && forall i :: 0 <= i < n ==> xs[i] == GI
  {
    seq(n, _ => GI)
  }

  lemma {:induction false} GibibytesSum(n: nat)
    ensures Sum(Gibibytes(n)) == n * GI
    decreases n
  {
    if n > 0 {
      GibibytesSum(n - 1);
      assert Gibibytes(n)[..n - 1] == Gibibytes(n - 1);
    }
  }
}
