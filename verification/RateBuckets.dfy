/** The hourly limit per address while retention deletes expired counters. */
module RateBuckets {
  import opened Tables
  import Transitions

  const HOUR: nat := 60 * MINUTE

  /** A counter; its key is the digest of kind, address and hour, taken to be injective. */
  datatype Entry = Entry(count: nat, expiresAt: nat)

  type Counters = map<Bucket, Entry>

  /** `current.replace(minute=0, second=0, microsecond=0)`. */
  function Period(now: nat): nat { now - now % HOUR }

  function BucketAt(kind: string, ip: string, now: nat): Bucket { Bucket(kind, ip, Period(now)) }

  function Count(counters: Counters, b: Bucket): nat {
    if b in counters then counters[b].count else 0
  }

  /** The upsert: a conflict keeps the stored expiry. */
  function Counted(counters: Counters, b: Bucket): Counters {
    counters[b := Entry(Count(counters, b) + 1, if b in counters then counters[b].expiresAt else b.hour + 2 * HOUR)]
  }

  function Swept(counters: Counters, now: nat): Counters {
    map b | b in counters && counters[b].expiresAt >= now :: counters[b]
  }

  class RateLimiter {
    var counters: Counters

    constructor ()
      ensures counters == map[]
    {
      counters := map[];
    }

    method CheckIpLimit(kind: string, ip: string, limit: nat, now: nat) returns (allowed: bool)
      modifies this
      ensures counters == Counted(old(counters), BucketAt(kind, ip, now))
      ensures allowed <==> Count(counters, BucketAt(kind, ip, now)) <= limit
    {
      var period := now - now % HOUR;
      var key := Bucket(kind, ip, period);
      if key in counters {
        counters := counters[key := counters[key].(count := counters[key].count + 1)];
      } else {
        counters := counters[key := Entry(1, period + 2 * HOUR)];
      }
      allowed := counters[key].count <= limit;
    }

    /** The counting query and the deletion read the clock separately; a dry run only counts. */
    method Retention(execute: bool, countedAt: nat, deletedAt: nat) returns (count: nat)
      requires countedAt <= deletedAt
      modifies this
      ensures counters == if execute then Swept(old(counters), deletedAt) else old(counters)
      ensures count == |old(counters)| - |Swept(old(counters), countedAt)|
      ensures execute ==> count <= |old(counters)| - |counters|
    {
      var expired := set b | b in counters && counters[b].expiresAt < countedAt;
      count := |expired|;
      assert Swept(counters, countedAt).Keys == counters.Keys - expired;
      if execute {
        FewerKeys(Swept(counters, deletedAt).Keys, Swept(counters, countedAt).Keys);
        counters := map b | b in counters && counters[b].expiresAt >= deletedAt :: counters[b];
      }
    }
  }

  lemma FewerKeys<T>(a: set<T>, b: set<T>)
    requires a <= b
    ensures |a| <= |b|
  {
    if a != {} {
      var x :| x in a;
      FewerKeys(a - {x}, b - {x});
    }
  }

  // ----- any interleaving of hits and sweeps

  datatype Event = Hit(kind: string, ip: string, at: nat) | Sweep(at: nat)

  ghost predicate InTime(events: seq<Event>) {
    forall i, j :: 0 <= i < j < |events| ==> events[i].at <= events[j].at
  }

  predicate HitsBucket(e: Event, b: Bucket) {
    e.Hit? && BucketAt(e.kind, e.ip, e.at) == b
  }

  function Played(events: seq<Event>): Counters {
    if events == [] then map[]
    else
      var before, e := Played(events[..|events| - 1]), events[|events| - 1];
      match e
      case Hit(kind, ip, at) => Counted(before, BucketAt(kind, ip, at))
      case Sweep(at) => Swept(before, at)
  }

  /** Requests of the bucket's kind from its address within its hour. */
  function Hits(events: seq<Event>, b: Bucket): nat {
    if events == [] then 0
    else Hits(events[..|events| - 1], b) + if HitsBucket(events[|events| - 1], b) then 1 else 0
  }

  /** Those of them that were let through. */
  function Admitted(events: seq<Event>, b: Bucket, limit: nat): nat {
    if events == [] then 0
    else
      Admitted(events[..|events| - 1], b, limit)
      + if HitsBucket(events[|events| - 1], b) && Count(Played(events), b) <= limit then 1 else 0
  }

  /** Until two hours after its hour began a counter tells the requests of that hour: retention never
      resets a live one. */
  lemma {:induction false} LiveCounterIsExact(events: seq<Event>, b: Bucket)
    requires InTime(events)
    requires events != [] ==> events[|events| - 1].at <= b.hour + 2 * HOUR
    ensures Count(Played(events), b) == Hits(events, b)
    ensures b in Played(events) ==> Played(events)[b].expiresAt == b.hour + 2 * HOUR
  {
    if events != [] {
      var n := |events| - 1;
      assert n > 0 ==> events[..n][n - 1].at <= events[n].at;
      LiveCounterIsExact(events[..n], b);
    }
  }

  lemma HitIsLive(e: Event, b: Bucket)
    requires HitsBucket(e, b)
    ensures b.hour <= e.at < b.hour + HOUR
  {
  }

  /** Each clock hour admits exactly the first `limit` requests of a kind from an address, whatever
      retention deletes in between. */
  lemma {:induction false} HourAdmitsExactlyTheFirst(events: seq<Event>, b: Bucket, limit: nat)
    requires InTime(events)
    ensures Admitted(events, b, limit) == if Hits(events, b) <= limit then Hits(events, b) else limit
  {
    if events != [] {
      var n := |events| - 1;
      HourAdmitsExactlyTheFirst(events[..n], b, limit);
      if HitsBucket(events[n], b) {
        HitIsLive(events[n], b);
        LiveCounterIsExact(events, b);
      }
    }
  }

  /** Once its expiry has passed, a sweep removes the counter, and no request can bring it back. */
  lemma {:induction false} ExpiredCounterIsGone(events: seq<Event>, s: nat, b: Bucket)
    requires InTime(events) && s < |events| && events[s].Sweep? && events[s].at > b.hour + 2 * HOUR
    ensures b !in Played(events)
  {
    var n := |events| - 1;
    if s < n {
      ExpiredCounterIsGone(events[..n], s, b);
      assert events[s].at <= events[n].at;
    } else {
      CounterExpiry(events[..n], b);
    }
  }

  lemma {:induction false} CounterExpiry(events: seq<Event>, b: Bucket)
    ensures b in Played(events) ==> Played(events)[b].expiresAt == b.hour + 2 * HOUR
  {
    if events != [] { CounterExpiry(events[..|events| - 1], b); }
  }

  // ----- the counters of the question lifecycle

  /** The lifecycle's counters after the same requests: no expiry, nothing deleted. */
  function Tallied(events: seq<Event>): map<Bucket, nat> {
    if events == [] then map[]
    else
      var before, e := Tallied(events[..|events| - 1]), events[|events| - 1];
      if e.Hit? then Transitions.Hit(before, BucketAt(e.kind, e.ip, e.at)) else before
  }

  lemma {:induction false} TallyIsHits(events: seq<Event>, b: Bucket)
    ensures (if b in Tallied(events) then Tallied(events)[b] else 0) == Hits(events, b)
  {
    if events != [] { TallyIsHits(events[..|events| - 1], b); }
  }

  /** The next request is let through by the stored counters, with their expiry and retention, exactly when
      the lifecycle's plain counters let it through. */
  lemma RetentionIsInvisible(events: seq<Event>, kind: string, ip: string, now: nat, limit: nat)
    requires InTime(events + [Hit(kind, ip, now)])
    ensures var b := BucketAt(kind, ip, now);
            Count(Counted(Played(events), b), b) <= limit <==> Transitions.WithinLimit(Tallied(events), b, limit)
  {
    var b := BucketAt(kind, ip, now);
    var more := events + [Hit(kind, ip, now)];
    assert forall i :: 0 <= i < |events| ==> more[i] == events[i];
    assert events != [] ==> more[|events| - 1].at <= more[|events|].at;
    HitIsLive(Hit(kind, ip, now), b);
    LiveCounterIsExact(events, b);
    TallyIsHits(events, b);
  }
}
