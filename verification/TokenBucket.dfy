/**
 The rate limiter of the registration API: one token bucket for each address, forgotten when it has been
 idle for five minutes. Times are seconds and tokens are amounts, both without rounding.
 */
module TokenBuckets {
  import opened Messages

  const RATE_LIMIT_PER_SEC := 1.0
  const RATE_LIMIT_BURST := 10.0
  const RATE_LIMITER_PRUNE_SECS := 300

  // ---------------------------------------------------------------------------
  // Buckets
  // ---------------------------------------------------------------------------

  function Min(a: real, b: real): real {
    if a <= b then a else b
  }

  datatype Bucket = Bucket(tokens: real, lastRefill: real) {

    /** Refills for the time that has passed, then takes a token if there is one. */
    function TryConsume(now: real): (Bucket, bool) {
      var refilled := Min(tokens + (now - lastRefill) * RATE_LIMIT_PER_SEC, RATE_LIMIT_BURST);
      if refilled >= 1.0 then (Bucket(refilled - 1.0, now), true) else (Bucket(refilled, now), false)
    }
  }

  function NewBucket(now: real): Bucket {
    Bucket(RATE_LIMIT_BURST, now)
  }

  type Table = map<IpAddr, Bucket>

  datatype Event = Request(ip: IpAddr, now: real) | Prune(now: real)

  function Find(table: Table, ip: IpAddr, now: real): Bucket {
    if ip in table then table[ip] else NewBucket(now)
  }

  /** The buckets used in the last five minutes, counted in whole seconds. */
  function Recent(table: Table, now: real): Table {
    map ip | ip in table && (now - table[ip].lastRefill).Floor < RATE_LIMITER_PRUNE_SECS :: table[ip]
  }

  /** One event; whether a request is admitted. A limiter that never prunes takes `prunes` to be false. */
  function React(table: Table, e: Event, prunes: bool): (Table, bool) {
    match e
    case Request(ip, now) =>
      var (bucket, admitted) := Find(table, ip, now).TryConsume(now);
      (table[ip := bucket], admitted)
    case Prune(now) => (if prunes then Recent(table, now) else table, false)
  }

  // ---------------------------------------------------------------------------
  // Runs
  // ---------------------------------------------------------------------------

  ghost predicate InOrder(events: seq<Event>) {
    forall i, j :: 0 <= i < j < |events| ==> events[i].now <= events[j].now
  }

  /** The table after the first `n` events. */
  function TableAt(events: seq<Event>, n: nat, prunes: bool): Table
    requires n <= |events|
  {
    if n == 0 then map[] else React(TableAt(events, n - 1, prunes), events[n - 1], prunes).0
  }

  function Admits(events: seq<Event>, i: nat, prunes: bool): bool
    requires i < |events|
  {
    React(TableAt(events, i, prunes), events[i], prunes).1
  }

  /** How many requests of `ip` in the time from `a` to `b` are admitted among the first `n` events. */
  function Admitted(events: seq<Event>, n: nat, prunes: bool, ip: IpAddr, a: real, b: real): nat
    requires n <= |events|
  {
    if n == 0 then 0
    else
      var e := events[n - 1];
      Admitted(events, n - 1, prunes, ip, a, b)
      + (if e.Request? && e.ip == ip && a <= e.now <= b && Admits(events, n - 1, prunes) then 1 else 0)
  }

  // ---------------------------------------------------------------------------
  // Pruning is unobservable
  // ---------------------------------------------------------------------------

  predicate BucketOk(bucket: Bucket, now: real) {
    0.0 <= bucket.tokens <= RATE_LIMIT_BURST && bucket.lastRefill <= now
  }

  /** At `now` the pruned table lacks only buckets that are full again by then. */
  ghost predicate Forgets(pruned: Table, kept: Table, now: real) {
    && (forall ip :: ip in pruned ==> ip in kept && pruned[ip] == kept[ip])
    && (forall ip :: ip in kept ==> BucketOk(kept[ip], now))
    && (forall ip :: ip in kept && ip !in pruned ==> now - kept[ip].lastRefill >= RATE_LIMITER_PRUNE_SECS as real)
  }

  lemma ForgetsLater(pruned: Table, kept: Table, now: real, later: real)
    requires Forgets(pruned, kept, now) && now <= later
    ensures Forgets(pruned, kept, later)
  {}

  /** A bucket that was idle for five minutes acts as a new one. */
  lemma IdleActsAsNew(bucket: Bucket, now: real)
    requires BucketOk(bucket, now) && now - bucket.lastRefill >= RATE_LIMITER_PRUNE_SECS as real
    ensures bucket.TryConsume(now) == NewBucket(now).TryConsume(now)
  {}

  lemma ReactForgets(pruned: Table, kept: Table, e: Event)
    requires Forgets(pruned, kept, e.now)
    ensures React(pruned, e, true).1 == React(kept, e, false).1
    ensures Forgets(React(pruned, e, true).0, React(kept, e, false).0, e.now)
  {
    match e
    case Request(ip, now) =>
      if ip in kept && ip !in pruned {
        IdleActsAsNew(kept[ip], now);
      }
    case Prune(now) =>
  }

  lemma {:induction false} TablesMatch(events: seq<Event>, n: nat, now: real)
    requires InOrder(events) && n <= |events| && (n > 0 ==> events[n - 1].now <= now)
    ensures Forgets(TableAt(events, n, true), TableAt(events, n, false), now)
  {
    if n > 0 {
      var e := events[n - 1];
      TablesMatch(events, n - 1, e.now);
      ReactForgets(TableAt(events, n - 1, true), TableAt(events, n - 1, false), e);
      ForgetsLater(TableAt(events, n, true), TableAt(events, n, false), e.now, now);
    }
  }

  /** Every decision is the one of a limiter that never prunes. */
  lemma PruningIsUnobservable(events: seq<Event>, i: nat)
    requires InOrder(events) && i < |events|
    ensures Admits(events, i, true) == Admits(events, i, false)
  {
    TablesMatch(events, i, events[i].now);
    ReactForgets(TableAt(events, i, true), TableAt(events, i, false), events[i]);
  }

  // ---------------------------------------------------------------------------
  // The bound
  // ---------------------------------------------------------------------------

  /** What was admitted since `a` and what is left in the bucket was there at `a` or came in since. */
  ghost predicate Paid(table: Table, ip: IpAddr, a: real, count: nat) {
    if ip in table && table[ip].lastRefill >= a
    then count as real + table[ip].tokens <= RATE_LIMIT_BURST + (table[ip].lastRefill - a) * RATE_LIMIT_PER_SEC
    else count == 0
  }

  lemma {:induction false} KeptTablePays(events: seq<Event>, n: nat, ip: IpAddr, a: real, b: real, now: real)
    requires InOrder(events) && n <= |events| && (n > 0 ==> events[n - 1].now <= now)
    ensures Paid(TableAt(events, n, false), ip, a, Admitted(events, n, false, ip, a, b))
    ensures forall other :: other in TableAt(events, n, false) ==> BucketOk(TableAt(events, n, false)[other], now)
  {
    if n > 0 {
      KeptTablePays(events, n - 1, ip, a, b, events[n - 1].now);
    }
  }

  lemma {:induction false} SameCount(events: seq<Event>, n: nat, ip: IpAddr, a: real, b: real)
    requires InOrder(events) && n <= |events|
    ensures Admitted(events, n, true, ip, a, b) == Admitted(events, n, false, ip, a, b)
  {
    if n > 0 {
      SameCount(events, n - 1, ip, a, b);
      PruningIsUnobservable(events, n - 1);
    }
  }

  /** Nothing after `b` counts. */
  lemma {:induction false} CountUpTo(events: seq<Event>, n: nat, ip: IpAddr, a: real, b: real) returns (m: nat)
    requires InOrder(events) && n <= |events|
    ensures m <= n && Admitted(events, n, false, ip, a, b) == Admitted(events, m, false, ip, a, b)
    ensures m > 0 ==> events[m - 1].now <= b
  {
    m := n;
    if n > 0 && events[n - 1].now > b {
      m := CountUpTo(events, n - 1, ip, a, b);
    }
  }

  /** In every run each address is admitted at most 10 + (b - a) times in the time from `a` to `b`. */
  lemma AdmissionIsBounded(events: seq<Event>, n: nat, ip: IpAddr, a: real, b: real)
    requires InOrder(events) && n <= |events| && a <= b
    ensures Admitted(events, n, true, ip, a, b) as real <= RATE_LIMIT_BURST + (b - a) * RATE_LIMIT_PER_SEC
  {
    SameCount(events, n, ip, a, b);
    var m := CountUpTo(events, n, ip, a, b);
    KeptTablePays(events, m, ip, a, b, b);
  }

  // ---------------------------------------------------------------------------
  // The table
  // ---------------------------------------------------------------------------

  class RateTable {
    var buckets: Table

    constructor ()
      ensures buckets == map[]
    {
      buckets := map[];
    }

    method Admit(ip: IpAddr, now: real) returns (admitted: bool)
      modifies this
      ensures (buckets, admitted) == React(old(buckets), Request(ip, now), true)
    {
      if ip !in buckets {
        buckets := buckets[ip := NewBucket(now)];
      }
      var (bucket, ok) := buckets[ip].TryConsume(now);
      buckets := buckets[ip := bucket];
      assert buckets == old(buckets)[ip := bucket];
      admitted := ok;
    }

    method PruneOld(now: real)
      modifies this
      ensures buckets == React(old(buckets), Prune(now), true).0
    {
      var todo := buckets.Keys;
      var all := buckets;
      while todo != {}
        invariant todo <= all.Keys
        invariant buckets ==
          map ip | ip in all && (ip in todo || (now - all[ip].lastRefill).Floor < RATE_LIMITER_PRUNE_SECS) :: all[ip]
        decreases |todo|
      {
        var ip :| ip in todo;
        todo := todo - {ip};
        if (now - buckets[ip].lastRefill).Floor >= RATE_LIMITER_PRUNE_SECS {
          buckets := buckets - {ip};
        }
      }
    }
  }
}
