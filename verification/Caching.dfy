/** The counters of the caching controller (pkg/controller/caching.go). */
module Caching {
  datatype Tier = NVMe | SSD | HDD | S3 | Auto | OtherTier(name: string)

  datatype Status = Pending | Loading | Active | Evicting | Inactive | Failed

  function On<K>(tiers: map<K, Tier>, t: Tier): set<K> {
    set id | id in tiers && tiers[id] == t
  }

  /** How many of the caches sit on a tier. */
  function Count<K>(tiers: map<K, Tier>, t: Tier): nat {
    |On(tiers, t)|
  }

  function One(here: Tier, t: Tier): nat {
    if here == t then 1 else 0
  }

  lemma OnAdded<K>(tiers: map<K, Tier>, id: K, tier: Tier, t: Tier)
    requires id !in tiers
    ensures On(tiers[id := tier], t) == if tier == t then On(tiers, t) + {id} else On(tiers, t)
  {
  }

  lemma SizeAdded<K>(tiers: map<K, Tier>, id: K, tier: Tier)
    ensures |tiers[id := tier]| == if id in tiers then |tiers| else |tiers| + 1
  {
    assert tiers[id := tier].Keys == tiers.Keys + {id};
    if id in tiers {
      assert tiers.Keys + {id} == tiers.Keys;
    }
    assert |tiers[id := tier]| == |tiers[id := tier].Keys| && |tiers| == |tiers.Keys|;
  }

  lemma CountAdded<K>(tiers: map<K, Tier>, id: K, tier: Tier, t: Tier)
    requires id !in tiers
    ensures Count(tiers[id := tier], t) == Count(tiers, t) + One(tier, t)
  {
    OnAdded(tiers, id, tier, t);
    assert id !in On(tiers, t);
  }

  datatype Counters = Counters(active: int, nvme: int, ssd: int, hdd: int)

  /** What the counters should hold. */
  function Tally<K>(tiers: map<K, Tier>): Counters {
    Counters(|tiers|, Count(tiers, NVMe), Count(tiers, SSD), Count(tiers, HDD))
  }

  function Shift(c: Counters, tier: Tier, delta: int): (r: Counters)
    ensures r.active == c.active
  {
    match tier
    case NVMe => c.(nvme := c.nvme + delta)
    case SSD => c.(ssd := c.ssd + delta)
    case HDD => c.(hdd := c.hdd + delta)
    case _ => c
  }

  /** Moving the counters by one cache on a tier. */
  function Plus(c: Counters, tier: Tier, delta: int): Counters {
    Counters(c.active + delta, c.nvme + (if tier.NVMe? then delta else 0), c.ssd + (if tier.SSD? then delta else 0),
             c.hdd + (if tier.HDD? then delta else 0))
  }

  lemma ShiftIsPlus(c: Counters, tier: Tier, delta: int)
    ensures Shift(c.(active := c.active + delta), tier, delta) == Plus(c, tier, delta)
    ensures Shift(c, tier, delta) == Plus(c, tier, delta).(active := c.active)
  {
  }

  lemma CountsAdded<K>(tiers: map<K, Tier>, id: K, tier: Tier)
    requires id !in tiers
    ensures Count(tiers[id := tier], NVMe) == Count(tiers, NVMe) + One(tier, NVMe)
    ensures Count(tiers[id := tier], SSD) == Count(tiers, SSD) + One(tier, SSD)
    ensures Count(tiers[id := tier], HDD) == Count(tiers, HDD) + One(tier, HDD)
  {
    CountAdded(tiers, id, tier, NVMe);
    CountAdded(tiers, id, tier, SSD);
    CountAdded(tiers, id, tier, HDD);
  }

  lemma TallyAdded<K>(tiers: map<K, Tier>, id: K, tier: Tier)
    requires id !in tiers
    ensures Tally(tiers[id := tier]) == Plus(Tally(tiers), tier, 1)
  {
    CountsAdded(tiers, id, tier);
    SizeAdded(tiers, id, tier);
    TallyOf(tiers, tiers[id := tier], tier);
  }

  lemma TallyOf<K>(tiers: map<K, Tier>, more: map<K, Tier>, tier: Tier)
    requires Count(more, NVMe) == Count(tiers, NVMe) + One(tier, NVMe)
    requires Count(more, SSD) == Count(tiers, SSD) + One(tier, SSD)
    requires Count(more, HDD) == Count(tiers, HDD) + One(tier, HDD)
    requires |more| == |tiers| + 1
    ensures Tally(more) == Plus(Tally(tiers), tier, 1)
  {
    PlusMeans(|tiers|, Count(tiers, NVMe), Count(tiers, SSD), Count(tiers, HDD), tier);
  }

  lemma PlusMeans(all: int, nvme: int, ssd: int, hdd: int, tier: Tier)
    ensures Plus(Counters(all, nvme, ssd, hdd), tier, 1)
            == Counters(all + 1, nvme + One(tier, NVMe), ssd + One(tier, SSD), hdd + One(tier, HDD))
  {
  }

  lemma Restored<K>(tiers: map<K, Tier>, id: K, tier: Tier)
    requires id in tiers
    ensures tiers[id := tier] == (tiers - {id})[id := tier] && tiers == (tiers - {id})[id := tiers[id]]
  {
  }

  lemma PlusUndoes(c: Counters, tier: Tier)
    ensures Plus(Plus(c, tier, 1), tier, -1) == c
  {
  }

  datatype CachingRequest = CachingRequest(sourcePVC: string, sourceNamespace: string, targetTier: Tier,
                                           knownPolicy: bool) {
    predicate Acceptable() {
      sourcePVC != "" && sourceNamespace != "" && !targetTier.OtherTier? && knownPolicy
    }
  }

  // ----- operations, in any sequence

  datatype State = State(tiers: map<string, Tier>, total: int, counters: Counters)

  const EMPTY := State(map[], 0, Counters(0, 0, 0, 0))

  /** id: the generated one, eight hex digits of a UUID. */
  datatype Operation =
    | Create(id: string, request: CachingRequest)
    | Delete(id: string)
    | Evict(id: string)
    | Migrate(id: string, tier: Tier)

  function Apply(s: State, op: Operation): State {
    match op
    case Create(id, request) =>
      if !request.Acceptable() then s
      else State(s.tiers[id := request.targetTier], s.total + 1,
                 Shift(s.counters.(active := s.counters.active + 1), request.targetTier, 1))
    case Delete(id) =>
      if id !in s.tiers then s
      else State(s.tiers - {id}, s.total, Shift(s.counters.(active := s.counters.active - 1), s.tiers[id], -1))
    case Evict(_) => s
    case Migrate(id, tier) =>
      if id !in s.tiers then s
      else s.(tiers := s.tiers[id := tier], counters := Shift(Shift(s.counters, s.tiers[id], -1), tier, 1))
  }

  function Run(ops: seq<Operation>): State
    decreases |ops|
  {
    if ops == [] then EMPTY else Apply(Run(ops[..|ops| - 1]), ops[|ops| - 1])
  }

  /** An accepted creation under an identifier in use. */
  predicate Collides(s: State, op: Operation) {
    op.Create? && op.request.Acceptable() && op.id in s.tiers
  }

  function Collisions(ops: seq<Operation>): nat
    decreases |ops|
  {
    if ops == [] then 0
    else Collisions(ops[..|ops| - 1]) + if Collides(Run(ops[..|ops| - 1]), ops[|ops| - 1]) then 1 else 0
  }

  function Drift(s: State): int {
    s.counters.active - |s.tiers|
  }

  lemma SizeRemoved<K>(tiers: map<K, Tier>, id: K)
    requires id in tiers
    ensures |tiers - {id}| == |tiers| - 1
  {
    var fewer := tiers - {id};
    assert tiers == fewer[id := tiers[id]];
    SizeAdded(fewer, id, tiers[id]);
  }

  lemma CreateDrift(s: State, id: string, request: CachingRequest)
    requires request.Acceptable()
    ensures Drift(Apply(s, Create(id, request))) == Drift(s) + if id in s.tiers then 1 else 0
  {
    SizeAdded(s.tiers, id, request.targetTier);
  }

  lemma DeleteDrift(s: State, id: string)
    ensures Drift(Apply(s, Delete(id))) == Drift(s)
  {
    if id in s.tiers {
      SizeRemoved(s.tiers, id);
    }
  }

  lemma MigrateDrift(s: State, id: string, tier: Tier)
    ensures Drift(Apply(s, Migrate(id, tier))) == Drift(s)
  {
    SizeAdded(s.tiers, id, tier);
  }

  lemma StepDrift(s: State, op: Operation)
    ensures Drift(Apply(s, op)) == Drift(s) + if Collides(s, op) then 1 else 0
  {
    match op
    case Create(id, request) =>
      if request.Acceptable() {
        CreateDrift(s, id, request);
      }
    case Delete(id) => DeleteDrift(s, id);
    case Evict(_) =>
    case Migrate(id, tier) => MigrateDrift(s, id, tier);
  }

  /** After any sequence of operations ActiveCaches exceeds the number of stored caches by exactly the
      number of collisions, and never recovers. */
  lemma {:induction false} DriftIsCollisions(ops: seq<Operation>)
    ensures Drift(Run(ops)) == Collisions(ops)
    decreases |ops|
  {
    if ops != [] {
      DriftIsCollisions(ops[..|ops| - 1]);
      StepDrift(Run(ops[..|ops| - 1]), ops[|ops| - 1]);
    }
  }

  /** What any count that follows single additions has in common with the tally. */
  ghost predicate Lawful(tally: map<string, Tier> -> Counters) {
    && tally(map[]) == Counters(0, 0, 0, 0)
    && forall tiers: map<string, Tier>, id: string, tier: Tier :: id !in tiers ==> Follows(tally, tiers, id, tier)
  }

  predicate Follows(tally: map<string, Tier> -> Counters, tiers: map<string, Tier>, id: string, tier: Tier) {
    tally(tiers[id := tier]) == Plus(tally(tiers), tier, 1)
  }

  lemma TallyIsLawful()
    ensures Lawful(m => Tally(m))
  {
    var tally: map<string, Tier> -> Counters := m => Tally(m);
    forall tiers: map<string, Tier>, id: string, tier: Tier | id !in tiers ensures Follows(tally, tiers, id, tier) {
      TallyAdded(tiers, id, tier);
    }
    TallyOfNothing();
  }

  lemma TallyOfNothing()
    ensures Tally<string>(map[]) == Counters(0, 0, 0, 0)
  {
    var none: map<string, Tier> := map[];
    assert On(none, NVMe) == {} && On(none, SSD) == {} && On(none, HDD) == {};
  }

  predicate Matches(s: State, tally: map<string, Tier> -> Counters) {
    s.counters == tally(s.tiers)
  }

  /** One more cache, on a tally that follows additions. */
  lemma CountedUp(c: Counters, tiers: map<string, Tier>, id: string, tier: Tier, tally: map<string, Tier> -> Counters)
    requires c == tally(tiers) && Follows(tally, tiers, id, tier)
    ensures Shift(c.(active := c.active + 1), tier, 1) == tally(tiers[id := tier])
  {
    ShiftIsPlus(c, tier, 1);
  }

  lemma CountedDown(c: Counters, tiers: map<string, Tier>, id: string, tally: map<string, Tier> -> Counters)
    requires id in tiers && c == tally(tiers) && Follows(tally, tiers - {id}, id, tiers[id])
    ensures Shift(c.(active := c.active - 1), tiers[id], -1) == tally(tiers - {id})
    ensures Shift(c, tiers[id], -1) == tally(tiers - {id}).(active := c.active)
  {
    Restored(tiers, id, tiers[id]);
    PlusUndoes(tally(tiers - {id}), tiers[id]);
    ShiftIsPlus(c, tiers[id], -1);
  }

  lemma CountedOver(c: Counters, tiers: map<string, Tier>, id: string, tier: Tier, tally: map<string, Tier> -> Counters)
    requires id in tiers && c == tally(tiers)
    requires Follows(tally, tiers - {id}, id, tiers[id]) && Follows(tally, tiers - {id}, id, tier)
    ensures Shift(Shift(c, tiers[id], -1), tier, 1) == tally(tiers[id := tier])
  {
    CountedDown(c, tiers, id, tally);
    Restored(tiers, id, tier);
    MovedCounters(c, tally(tiers - {id}), tiers[id], tier);
    assert c == Plus(tally(tiers - {id}), tiers[id], 1) by {
      Restored(tiers, id, tiers[id]);
    }
  }

  lemma MovedCounters(c: Counters, fewer: Counters, from: Tier, to: Tier)
    ensures c == Plus(fewer, from, 1) ==> Shift(Shift(c, from, -1), to, 1) == Plus(fewer, to, 1)
  {
  }

  lemma Instance(tally: map<string, Tier> -> Counters, tiers: map<string, Tier>, id: string, tier: Tier)
    requires Lawful(tally) && id !in tiers
    ensures Follows(tally, tiers, id, tier)
  {
  }

  lemma StepMatches(s: State, op: Operation, tally: map<string, Tier> -> Counters)
    requires Lawful(tally) && Matches(s, tally) && !Collides(s, op)
    ensures Matches(Apply(s, op), tally)
  {
    match op
    case Create(id, request) =>
      if request.Acceptable() {
        Instance(tally, s.tiers, id, request.targetTier);
        CreateMatches(s, id, request, tally);
      }
    case Delete(id) =>
      if id in s.tiers {
        Instance(tally, s.tiers - {id}, id, s.tiers[id]);
        DeleteMatches(s, id, tally);
      }
    case Evict(_) =>
    case Migrate(id, tier) =>
      if id in s.tiers {
        Instance(tally, s.tiers - {id}, id, s.tiers[id]);
        Instance(tally, s.tiers - {id}, id, tier);
        MigrateMatches(s, id, tier, tally);
      }
  }

  lemma CreateMatches(s: State, id: string, request: CachingRequest, tally: map<string, Tier> -> Counters)
    requires Matches(s, tally) && Follows(tally, s.tiers, id, request.targetTier)
    ensures Matches(Apply(s, Create(id, request)), tally)
  {
    CountedUp(s.counters, s.tiers, id, request.targetTier, tally);
  }

  lemma DeleteMatches(s: State, id: string, tally: map<string, Tier> -> Counters)
    requires id in s.tiers && Matches(s, tally) && Follows(tally, s.tiers - {id}, id, s.tiers[id])
    ensures Matches(Apply(s, Delete(id)), tally)
  {
    CountedDown(s.counters, s.tiers, id, tally);
  }

  lemma MigrateMatches(s: State, id: string, tier: Tier, tally: map<string, Tier> -> Counters)
    requires id in s.tiers && Matches(s, tally)
    requires Follows(tally, s.tiers - {id}, id, s.tiers[id]) && Follows(tally, s.tiers - {id}, id, tier)
    ensures Matches(Apply(s, Migrate(id, tier)), tally)
  {
    CountedOver(s.counters, s.tiers, id, tier, tally);
  }

  /** Every counter counts the stored caches it should. */
  predicate Agree(s: State) {
    s.counters == Tally(s.tiers)
  }

  /** From counters that agree, one operation keeps them right exactly when it is no collision. */
  lemma StepAgreesExactlyWhen(s: State, op: Operation)
    ensures Agree(s) ==> (Agree(Apply(s, op)) <==> !Collides(s, op))
  {
    if Agree(s) {
      StepDrift(s, op);
      if !Collides(s, op) {
        TallyIsLawful();
        StepMatches(s, op, m => Tally(m));
      }
    }
  }

  lemma CreateGives(s: State, id: string, request: CachingRequest, t: State)
    requires request.Acceptable() && t.tiers == s.tiers[id := request.targetTier] && t.total == s.total + 1
    requires t.counters == Shift(s.counters.(active := s.counters.active + 1), request.targetTier, 1)
    ensures t == Apply(s, Create(id, request))
    ensures Agree(s) ==> (Agree(t) <==> id !in s.tiers)
  {
    StepAgreesExactlyWhen(s, Create(id, request));
  }

  lemma DeleteGives(s: State, id: string, t: State)
    requires id in s.tiers && t.tiers == s.tiers - {id} && t.total == s.total
    requires t.counters == Shift(s.counters.(active := s.counters.active - 1), s.tiers[id], -1)
    ensures t == Apply(s, Delete(id))
    ensures Agree(s) ==> Agree(t)
  {
    StepAgreesExactlyWhen(s, Delete(id));
  }

  lemma MigrateGives(s: State, id: string, tier: Tier, t: State)
    requires id in s.tiers && t.tiers == s.tiers[id := tier] && t.total == s.total
    requires t.counters == Shift(Shift(s.counters, s.tiers[id], -1), tier, 1)
    ensures t == Apply(s, Migrate(id, tier))
    ensures Agree(s) ==> Agree(t)
  {
    StepAgreesExactlyWhen(s, Migrate(id, tier));
  }

  lemma {:induction false} NoCollisionMatches(ops: seq<Operation>, tally: map<string, Tier> -> Counters)
    requires Lawful(tally) && Collisions(ops) == 0
    ensures Matches(Run(ops), tally)
    decreases |ops|
  {
    if ops != [] {
      NoCollisionMatches(ops[..|ops| - 1], tally);
      StepMatches(Run(ops[..|ops| - 1]), ops[|ops| - 1], tally);
    }
  }

  /** After any sequence of operations all four counters count the stored caches if and only if no accepted
      creation ever reused an identifier. */
  lemma {:induction false} CountersAgreeExactlyWhen(ops: seq<Operation>)
    ensures Agree(Run(ops)) <==> Collisions(ops) == 0
  {
    DriftIsCollisions(ops);
    if Collisions(ops) == 0 {
      TallyIsLawful();
      NoCollisionMatches(ops, m => Tally(m));
    }
  }

  /** Two creations under one identifier: a single cache is stored and two are counted. */
  lemma SameIdentifierTwice(id: string, r: CachingRequest)
    requires r.Acceptable()
    ensures var s := Run([Create(id, r), Create(id, r)]);
            s.tiers == map[id := r.targetTier] && s.counters.active == 2 && !Agree(s)
  {
    var op := Create(id, r);
    RunOne(op);
    RunTwo(op, op);
    TwoAreOne(EMPTY, id, r);
    SizeAdded(EMPTY.tiers, id, r.targetTier);
    DriftIsCollisions([op, op]);
    CountersAgreeExactlyWhen([op, op]);
  }

  lemma RunOne(op: Operation)
    ensures Run([op]) == Apply(EMPTY, op)
  {
    assert [op][..0] == [];
  }

  lemma RunTwo(a: Operation, b: Operation)
    ensures Run([a, b]) == Apply(Run([a]), b)
  {
    assert [a, b][..1] == [a];
  }

  lemma Created(s: State, id: string, r: CachingRequest)
    requires r.Acceptable()
    ensures var t := Apply(s, Create(id, r));
            t.tiers == s.tiers[id := r.targetTier] && t.counters.active == s.counters.active + 1
  {
  }

  lemma TwoAreOne(s: State, id: string, r: CachingRequest)
    requires r.Acceptable() && s.tiers.Keys == {} && s.counters.active == 0
    ensures var t := Apply(Apply(s, Create(id, r)), Create(id, r));
            t.tiers == map[id := r.targetTier] && t.counters.active == 2
  {
    Created(s, id, r);
    Created(Apply(s, Create(id, r)), id, r);
  }

  /** targetTier is the one field of the job's request that changes. */
  class CacheJob {
    const request: CachingRequest
    var targetTier: Tier
    var status: Status

    constructor (request: CachingRequest)
      ensures this.request == request && targetTier == request.targetTier && status == Pending
    {
      this.request, targetTier, status := request, request.targetTier, Pending;
    }
  }

  class CachingController {
    var caches: map<string, CacheJob>
    var totalCaches: int
    var counters: Counters

    constructor ()
      ensures Valid() && caches == map[] && View() == EMPTY
    {
      caches, totalCaches, counters := map[], 0, Counters(0, 0, 0, 0);
    }

    /** Every cache has a job of its own. */
    ghost predicate Valid()
      reads this
    {
      forall a, b :: a in caches && b in caches && a != b ==> caches[a] != caches[b]
    }

    function Tiers(): map<string, Tier>
      reads `caches, caches.Values`targetTier
    {
      map id | id in caches :: caches[id].targetTier
    }

    function View(): State
      reads this, caches.Values`targetTier
    {
      State(Tiers(), totalCaches, counters)
    }

    method UpdateTierCount(tier: Tier, delta: int)
      modifies this`counters
      ensures counters == Shift(old(counters), tier, delta)
    {
      match tier {
        case NVMe => counters := counters.(nvme := counters.nvme + delta);
        case SSD => counters := counters.(ssd := counters.ssd + delta);
        case HDD => counters := counters.(hdd := counters.hdd + delta);
        case _ =>
      }
    }

    method CreateCache(id: string, request: CachingRequest) returns (created: bool)
      requires Valid()
      modifies this
      ensures Valid()
      ensures created <==> request.sourcePVC != "" && request.sourceNamespace != "" && request.knownPolicy &&
                           request.targetTier in {NVMe, SSD, HDD, S3, Auto}
      ensures created ==> totalCaches == old(totalCaches) + 1 && caches.Keys == old(caches).Keys + {id}
      ensures created ==> caches[id].targetTier == request.targetTier && caches[id].status == Pending
      ensures created ==> forall other :: other in old(caches) && other != id ==> caches[other] == old(caches)[other]
      ensures View() == Apply(old(View()), Create(id, request))
      ensures Agree(old(View())) ==> (Agree(View()) <==> !created || id !in old(caches))
      ensures !created ==> caches == old(caches) && totalCaches == old(totalCaches) && counters == old(counters)
    {
      if !request.Acceptable() {
        return false;
      }
      var job := new CacheJob(request);
      caches := caches[id := job];
      totalCaches := totalCaches + 1;
      counters := counters.(active := counters.active + 1);
      UpdateTierCount(request.targetTier, 1);
      assert Tiers() == old(Tiers())[id := request.targetTier];
      CreateGives(old(View()), id, request, View());
      created := true;
    }

    method DeleteCache(id: string) returns (found: bool)
      requires Valid()
      modifies this, caches.Values
      ensures Valid() && (found <==> id in old(caches)) && caches == old(caches) - {id}
      ensures totalCaches == old(totalCaches) && (found ==> old(caches[id]).status == Inactive)
      ensures View() == Apply(old(View()), Delete(id))
      ensures Agree(old(View())) ==> Agree(View())
    {
      if id !in caches {
        assert caches - {id} == caches;
        return false;
      }
      var job := caches[id];
      job.status := Inactive;
      counters := counters.(active := counters.active - 1);
      UpdateTierCount(job.targetTier, -1);
      caches := caches - {id};
      assert Tiers() == old(Tiers()) - {id};
      DeleteGives(old(View()), id, View());
      found := true;
    }

    method EvictCache(id: string) returns (found: bool)
      requires Valid()
      modifies caches.Values
      ensures Valid() && (found <==> id in caches) && (found ==> caches[id].status == Evicting)
      ensures View() == Apply(old(View()), Evict(id))
      ensures Agree(old(View())) ==> Agree(View())
    {
      if id !in caches {
        return false;
      }
      caches[id].status := Evicting;
      assert Tiers() == old(Tiers());
      found := true;
    }

    method Relabel(id: string, tier: Tier)
      requires Valid() && id in caches
      modifies caches[id]
      ensures caches[id].status == old(caches[id].status)
      ensures caches[id].targetTier == tier
      ensures Tiers() == old(Tiers())[id := tier]
    {
      caches[id].targetTier := tier;
    }

    /** The new tier is not validated; one without a counter just leaves the counted ones. */
    method MigrateTier(id: string, tier: Tier) returns (found: bool)
      requires Valid()
      modifies this`counters, caches.Values
      ensures Valid() && (found <==> id in caches) && (found ==> caches[id].targetTier == tier)
      ensures forall other :: other in caches && other != id ==>
                caches[other].targetTier == old(caches[other].targetTier)
      ensures forall other :: other in caches ==> caches[other].status == old(caches[other].status)
      ensures View() == Apply(old(View()), Migrate(id, tier))
      ensures Agree(old(View())) ==> Agree(View())
    {
      if id !in caches {
        return false;
      }
      var oldTier := caches[id].targetTier;
      UpdateTierCount(oldTier, -1);
      UpdateTierCount(tier, 1);
      Relabel(id, tier);
      MigrateGives(old(View()), id, tier, View());
      found := true;
    }
  }

  /** The tier counters never exceed the number of caches, and none is negative. */
  lemma TierCountsFit(s: State)
    requires Agree(s)
    ensures var c := s.counters; c.nvme >= 0 && c.ssd >= 0 && c.hdd >= 0 && c.nvme + c.ssd + c.hdd <= c.active
  {
    var n, m, h := On(s.tiers, NVMe), On(s.tiers, SSD), On(s.tiers, HDD);
    assert |n + m + h| == |n| + |m| + |h|;
    SubsetSize(n + m + h, s.tiers.Keys);
  }

  lemma SubsetSize<K>(a: set<K>, b: set<K>)
    requires a <= b
    ensures |a| <= |b|
  {
    assert b == a + (b - a);
  }
}
