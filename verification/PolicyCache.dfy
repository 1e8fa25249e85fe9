/** The scheduler's cache of APOLLO policies (internal/apollo/client.go). */
module PolicyCache {
  import opened Options

  datatype Decision = Allow | Other(code: int)

  datatype Policy = Policy(podName: string, podNamespace: string, decision: Decision, body: string)

  datatype Source = Apollo | Cached | Fallback

  datatype PolicyResult = PolicyResult(policy: Policy, source: Source)

  function Key(namespace: string, name: string): string {
    namespace + "/" + name
  }

  function EmptyPolicy(namespace: string, name: string): Policy {
    Policy(name, namespace, Allow, "")
  }

  // ----- the two maps, and the three sections that hold their lock

  datatype State = State(policyCache: map<string, Policy>, cacheUpdateAt: map<string, int>)

  /** Look: is there an entry younger than the expiry? Rescue: is there any entry? */
  datatype Event =
    | Look(key: string, now: int)
    | Rescue(key: string)
    | Store(key: string, policy: Policy, now: int)

  const INITIAL := State(map[], map[])

  function Apply(s: State, e: Event): State {
    match e
    case Store(key, policy, now) => State(s.policyCache[key := policy], s.cacheUpdateAt[key := now])
    case _ => s
  }

  function Answer(s: State, e: Event, expiry: int): Option<Policy> {
    match e
    case Look(key, now) =>
      if key in s.policyCache && key in s.cacheUpdateAt && now - s.cacheUpdateAt[key] < expiry
      then Some(s.policyCache[key]) else None
    case Rescue(key) => if key in s.policyCache then Some(s.policyCache[key]) else None
    case Store(_, _, _) => None
  }

  function Replay(events: seq<Event>): State
    decreases |events|
  {
    if events == [] then INITIAL else Apply(Replay(events[..|events| - 1]), events[|events| - 1])
  }

  /** The last policy stored for a key, with its time. */
  function Latest(events: seq<Event>, key: string): Option<(Policy, int)>
    decreases |events|
  {
    if events == [] then None
    else
      match events[|events| - 1]
      case Store(k, policy, now) => if k == key then Some((policy, now)) else Latest(events[..|events| - 1], key)
      case _ => Latest(events[..|events| - 1], key)
  }

  /** However the locked sections of any number of lookups interleave: the two maps have the same keys,
      and hold for each the last policy stored. */
  lemma {:induction false} ReplayHoldsLatest(events: seq<Event>, key: string)
    ensures Replay(events).policyCache.Keys == Replay(events).cacheUpdateAt.Keys
    ensures key in Replay(events).policyCache <==> Latest(events, key).Some?
    ensures key in Replay(events).policyCache ==>
              Latest(events, key) == Some((Replay(events).policyCache[key], Replay(events).cacheUpdateAt[key]))
    decreases |events|
  {
    if events != [] {
      ReplayHoldsLatest(events[..|events| - 1], key);
    }
  }

  /** The answers of the two reading sections, in terms of what was stored before. */
  function Expected(events: seq<Event>, e: Event, expiry: int): Option<Policy> {
    match e
    case Store(_, _, _) => None
    case Look(key, now) =>
      (match Latest(events, key)
       case Some((policy, at)) => if now - at < expiry then Some(policy) else None
       case None => None)
    case Rescue(key) => match Latest(events, key) case Some((policy, _)) => Some(policy) case None => None
  }

  lemma {:induction false} AnswersAreLatest(events: seq<Event>, e: Event, expiry: int)
    ensures Answer(Replay(events), e, expiry) == Expected(events, e, expiry)
  {
    ReplayHoldsLatest(events, e.key);
  }

  // ----- the client

  class Client {
    const cacheExpiry: int
    var connected: bool
    var policyCache: map<string, Policy>
    var cacheUpdateAt: map<string, int>
    ghost var events: seq<Event>

    constructor (cacheExpiry: int)
      ensures Valid() && events == [] && !connected && this.cacheExpiry == cacheExpiry
    {
      this.cacheExpiry, connected, policyCache, cacheUpdateAt, events := cacheExpiry, false, map[], map[], [];
    }

    ghost predicate Valid()
      reads this
    {
      State(policyCache, cacheUpdateAt) == Replay(events)
    }

    method LookUp(key: string, now: int) returns (policy: Option<Policy>)
      requires Valid()
      modifies this`events
      ensures Valid() && events == old(events) + [Look(key, now)]
      ensures policy == Expected(old(events), Look(key, now), cacheExpiry)
    {
      AnswersAreLatest(events, Look(key, now), cacheExpiry);
      policy := None;
      if key in policyCache {
        if key in cacheUpdateAt {
          if now - cacheUpdateAt[key] < cacheExpiry {
            policy := Some(policyCache[key]);
          }
        }
      }
      events := events + [Look(key, now)];
    }

    method LookUpStale(key: string) returns (policy: Option<Policy>)
      requires Valid()
      modifies this`events
      ensures Valid() && events == old(events) + [Rescue(key)]
      ensures policy == Expected(old(events), Rescue(key), cacheExpiry)
    {
      AnswersAreLatest(events, Rescue(key), cacheExpiry);
      policy := if key in policyCache then Some(policyCache[key]) else None;
      events := events + [Rescue(key)];
    }

    method Update(key: string, policy: Policy, now: int)
      requires Valid()
      modifies this`policyCache, this`cacheUpdateAt, this`events
      ensures Valid() && events == old(events) + [Store(key, policy, now)]
    {
      policyCache := policyCache[key := policy];
      cacheUpdateAt := cacheUpdateAt[key := now];
      events := events + [Store(key, policy, now)];
    }

    /** dialled: whether a connection attempt, if one is made, succeeds. */
    method Connect(dialled: bool) returns (ok: bool)
      modifies this`connected
      ensures ok == connected == (old(connected) || dialled)
    {
      if connected {
        return true;
      }
      if !dialled {
        return false;
      }
      connected := true;
      ok := true;
    }

    /** Closing drops the connection and nothing else: what was stored still answers lookups, and the
        next fetch dials again. */
    method Close()
      requires Valid()
      modifies this`connected
      ensures !connected && Valid() && events == old(events)
    {
      connected := false;
    }

    /** One lookup, undisturbed. A cached answer is the last policy fetched for the pod, and it is young
        or was returned because this fetch failed; without a connection a stale policy is not used. */
    method GetSchedulingPolicyWithSource(namespace: string, name: string, now: int, dialled: bool,
                                         fetched: Option<Policy>, storedAt: int)
      returns (r: PolicyResult)
      requires Valid()
      modifies this
      ensures Valid()
      ensures var key := Key(namespace, name);
              var latest, connection := Latest(old(events), key), old(connected) || dialled;
              var young := latest.Some? && now - latest.value.1 < cacheExpiry;
              && (r.source == Cached <==> latest.Some? && (young || (connection && fetched.None?)))
              && (r.source == Apollo <==> !young && connection && fetched.Some?)
              && (r.source == Cached ==> r.policy == latest.value.0)
              && (r.source == Apollo ==> r.policy == fetched.value)
              && (r.source == Fallback ==> r.policy == Policy(name, namespace, Allow, ""))
              && Latest(events, key) == (if r.source == Apollo then Some((fetched.value, storedAt)) else latest)
              && connected == if young then old(connected) else connection
    {
      var cacheKey := Key(namespace, name);
      var cached := LookUp(cacheKey, now);
      if cached.Some? {
        return PolicyResult(cached.value, Cached);
      }
      if !connected {
        var ok := Connect(dialled);
        if !ok {
          return PolicyResult(EmptyPolicy(namespace, name), Fallback);
        }
      }
      if fetched.None? {
        var stale := LookUpStale(cacheKey);
        if stale.Some? {
          return PolicyResult(stale.value, Cached);
        }
        return PolicyResult(EmptyPolicy(namespace, name), Fallback);
      }
      Update(cacheKey, fetched.value, storedAt);
      r := PolicyResult(fetched.value, Apollo);
    }
  }

  // ----- pods and keys

  predicate HasSlash(s: string) {
    exists i :: 0 <= i < |s| && s[i] == '/'
  }

  /** Namespaces hold no slash, so pods never share an entry. */
  lemma KeysTellPodsApart(namespace: string, name: string, otherNamespace: string, otherName: string)
    requires !HasSlash(namespace) && !HasSlash(otherNamespace)
    ensures Key(namespace, name) == Key(otherNamespace, otherName) <==> namespace == otherNamespace && name == otherName
  {
    var a, b := Key(namespace, name), Key(otherNamespace, otherName);
    if a == b {
      assert a[|namespace|] == '/' && b[|otherNamespace|] == '/';
      assert namespace == a[..|namespace|] && otherNamespace == b[..|otherNamespace|];
      assert forall i :: 0 <= i < |namespace| ==> namespace[i] == b[i];
      assert forall i :: 0 <= i < |otherNamespace| ==> otherNamespace[i] == a[i];
      assert |namespace| == |otherNamespace|;
      assert name == a[|namespace| + 1..] && otherName == b[|namespace| + 1..];
    }
  }

  /** A pod's entry is untouched by what happens to other pods. */
  lemma {:induction false} OtherPodsDoNotMatter(events: seq<Event>, more: seq<Event>, key: string)
    requires forall i :: 0 <= i < |more| ==> more[i].key != key || !more[i].Store?
    ensures Latest(events + more, key) == Latest(events, key)
    decreases |more|
  {
    if more == [] {
      assert events + more == events;
    } else {
      var n := |more| - 1;
      assert (events + more)[..|events + more| - 1] == events + more[..n];
      OtherPodsDoNotMatter(events, more[..n], key);
    }
  }
}
