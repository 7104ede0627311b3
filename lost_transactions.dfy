/**
 * LostTransactionManager: keeps one lost-transaction cleaner per discovered
 * bucket, keyed by bucket name.
 */
module LostTransactions {
  import opened Errors

  const DiscoverBucketsPeriodMs := 10_000

  /** What the manager reads of a per-bucket cleaner. */
  datatype Cleaner = Cleaner(fullBucketName: string, running: bool, runCount: nat)

  type Cleaners = map<string, Cleaner>

  /** The cleaners still running. */
  function WithoutStopped(m: Cleaners): (r: Cleaners)
    ensures forall k :: k in r <==> k in m && m[k].running
    ensures forall k :: k in r ==> r[k] == m[k]
  {
    map k | k in m && m[k].running :: m[k]
  }

  /**
   * Adds a cleaner for each listed name not yet present, first to last.
   * `cleanerFor` is CleanerForBucket: None when opening the bucket throws,
   * which abandons the rest of the listing (the exception is caught by the
   * discovery round).
   */
  function AddMissing(m: Cleaners, names: seq<string>, cleanerFor: string -> Option<Cleaner>): Cleaners
    decreases |names|
  {
    if names == [] then m
    else if names[0] in m then AddMissing(m, names[1..], cleanerFor)
    else if cleanerFor(names[0]).None? then m
    else AddMissing(m[names[0] := cleanerFor(names[0]).value], names[1..], cleanerFor)
  }

  /** One discovery round after the mutex was acquired, given the bucket listing. */
  function Reconciled(m: Cleaners, listing: Option<seq<string>>, cleanerFor: string -> Option<Cleaner>): Cleaners
  {
    if listing.None? then WithoutStopped(m) else AddMissing(WithoutStopped(m), listing.value, cleanerFor)
  }

  /** Adding never replaces an entry, and what is added is a listed name with the cleaner made for it. */
  lemma {:induction false} AddMissingEffect(m: Cleaners, names: seq<string>, cleanerFor: string -> Option<Cleaner>)
    ensures var r := AddMissing(m, names, cleanerFor);
      forall k :: k in m ==> k in r && r[k] == m[k]
    ensures var r := AddMissing(m, names, cleanerFor);
      forall k :: k in r && k !in m ==> k in names && cleanerFor(k) == Some(r[k])
    decreases |names|
  {
    if names != [] {
      var n := names[0];
      var tail := names[1..];
      assert forall k :: k in tail ==> k in names;
      if n in m {
        AddMissingEffect(m, tail, cleanerFor);
      } else if cleanerFor(n).Some? {
        AddMissingEffect(m[n := cleanerFor(n).value], tail, cleanerFor);
      }
    }
  }

  /**
   * A listed name is left without a cleaner only when making its cleaner,
   * or an earlier one, failed.
   */
  lemma {:induction false} AddMissingStopsAtFailure(m: Cleaners, names: seq<string>, cleanerFor: string -> Option<Cleaner>)
    ensures var r := AddMissing(m, names, cleanerFor);
      forall i | 0 <= i < |names| && names[i] !in r ::
        exists j | 0 <= j <= i :: names[j] !in r && cleanerFor(names[j]).None?
    decreases |names|
  {
    if names != [] {
      var n := names[0];
      var tail := names[1..];
      var r := AddMissing(m, names, cleanerFor);
      if n in m || cleanerFor(n).Some? {
        var m1 := if n in m then m else m[n := cleanerFor(n).value];
        assert r == AddMissing(m1, tail, cleanerFor);
        AddMissingStopsAtFailure(m1, tail, cleanerFor);
        AddMissingEffect(m1, tail, cleanerFor);
        forall i | 0 <= i < |names| && names[i] !in r
          ensures exists j | 0 <= j <= i :: names[j] !in r && cleanerFor(names[j]).None?
        {
          assert i > 0 && names[i] == tail[i - 1];
          var j :| 0 <= j <= i - 1 && tail[j] !in r && cleanerFor(tail[j]).None?;
          assert names[j + 1] == tail[j];
        }
      } else {
        assert r == m && names[0] !in r;
      }
    }
  }

  /** Once a listed name is left out, no later new name is added: the rest of the listing is skipped. */
  lemma {:induction false} AddMissingSkipsRest(m: Cleaners, names: seq<string>, cleanerFor: string -> Option<Cleaner>)
    ensures var r := AddMissing(m, names, cleanerFor);
      forall i, j | 0 <= i < j < |names| && names[i] !in r && names[j] in r ::
        names[j] in m || names[j] in names[..i]
    decreases |names|
  {
    if names != [] {
      var n := names[0];
      var tail := names[1..];
      var r := AddMissing(m, names, cleanerFor);
      if n in m || cleanerFor(n).Some? {
        var m1 := if n in m then m else m[n := cleanerFor(n).value];
        assert r == AddMissing(m1, tail, cleanerFor);
        AddMissingSkipsRest(m1, tail, cleanerFor);
        AddMissingEffect(m1, tail, cleanerFor);
        forall i, j | 0 <= i < j < |names| && names[i] !in r && names[j] in r
          ensures names[j] in m || names[j] in names[..i]
        {
          assert i > 0 && names[i] == tail[i - 1] && names[j] == tail[j - 1];
          if names[j] == n {
            assert names[..i][0] == n;
          } else if names[j] in tail[..i - 1] {
            var x :| 0 <= x < i - 1 && tail[..i - 1][x] == names[j];
            assert names[..i][x + 1] == names[j];
          }
        }
      }
    }
  }

  /** When every new bucket's cleaner can be made, every listed bucket ends up with one. */
  lemma AddMissingAll(m: Cleaners, names: seq<string>, cleanerFor: string -> Option<Cleaner>)
    requires forall i | 0 <= i < |names| :: names[i] in m || cleanerFor(names[i]).Some?
    ensures forall i | 0 <= i < |names| :: names[i] in AddMissing(m, names, cleanerFor)
  {
    AddMissingEffect(m, names, cleanerFor);
    AddMissingStopsAtFailure(m, names, cleanerFor);
    var r := AddMissing(m, names, cleanerFor);
    forall i | 0 <= i < |names|
      ensures names[i] in r
    {
      assert !exists j | 0 <= j <= i :: names[j] !in r && cleanerFor(names[j]).None?;
    }
  }

  /**
   * A discovery round keeps exactly the running cleaners unchanged, adds
   * only listed buckets with the cleaner made for them, and drops a stopped
   * cleaner unless its bucket is listed and gets a new one.
   */
  lemma ReconciledEffect(m: Cleaners, names: seq<string>, cleanerFor: string -> Option<Cleaner>)
    ensures forall k :: k in m && m[k].running ==>
      k in Reconciled(m, Some(names), cleanerFor) && Reconciled(m, Some(names), cleanerFor)[k] == m[k]
    ensures forall k :: k in Reconciled(m, Some(names), cleanerFor) ==>
      (k in m && m[k].running && Reconciled(m, Some(names), cleanerFor)[k] == m[k])
      || (k in names && cleanerFor(k) == Some(Reconciled(m, Some(names), cleanerFor)[k]))
    ensures forall k :: k in m && !m[k].running && k !in names ==> k !in Reconciled(m, Some(names), cleanerFor)
  {
    AddMissingEffect(WithoutStopped(m), names, cleanerFor);
  }

  // ---------------------------------------------------------------- the timer mutex

  /**
   * The permits of `_timerCallbackMutex` after a discovery round as written:
   * a passed wait takes one, and the `finally` block releases one whether or
   * not the wait passed.
   */
  function PermitsAfterDiscoveryAsWritten(permits: nat, passed: bool): (r: nat)
    requires passed ==> permits > 0
  {
    (if passed then permits - 1 else permits) + 1
  }

  /** The permits after a round that releases only a permit it took. */
  function PermitsAfterDiscovery(permits: nat, passed: bool): (r: nat)
    requires passed ==> permits > 0
  {
    if passed then permits - 1 + 1 else permits
  }

  /**
   * As written, a wait that times out (or is cancelled) still releases, so
   * the binary mutex gains a second permit and two rounds can run at once.
   */
  lemma AsWrittenTimeoutAddsPermit(permits: nat, passed: bool)
    requires passed ==> permits > 0
    ensures PermitsAfterDiscoveryAsWritten(permits, false) == permits + 1
    ensures PermitsAfterDiscoveryAsWritten(1, false) == 2
    ensures PermitsAfterDiscoveryAsWritten(permits, passed) == PermitsAfterDiscovery(permits, passed) <==> passed
  {
  }

  /** Releasing only a permit it took, a round keeps the mutex's permits as they were. */
  lemma DiscoveryKeepsPermits(permits: nat, passed: bool)
    requires passed ==> permits > 0
    ensures PermitsAfterDiscovery(permits, passed) == permits
    ensures permits <= 1 ==> PermitsAfterDiscovery(permits, passed) <= 1
  {
  }

  /** Sum of the cleaners' run counts. */
  ghost function SumRuns(m: Cleaners): nat
    decreases |m|
  {
    if m == map[] then 0
    else
      var k :| k in m;
      m[k].runCount + SumRuns(m - {k})
  }

  /** The sum does not depend on which key is taken first. */
  lemma {:induction false} SumRunsRemove(m: Cleaners, k: string)
    requires k in m
    ensures SumRuns(m) == m[k].runCount + SumRuns(m - {k})
    decreases |m|
  {
    var j :| j in m && SumRuns(m) == m[j].runCount + SumRuns(m - {j});
    if j != k {
      SumRunsRemove(m - {j}, k);
      SumRunsRemove(m - {k}, j);
      assert m - {j} - {k} == m - {k} - {j};
    }
  }

  /** The buckets whose cleaner is running. */
  function RunningKeys(m: Cleaners): set<string>
  {
    set k | k in m && m[k].running
  }

  lemma {:induction false} SubsetNoLarger(a: set<string>, b: set<string>)
    requires a <= b
    ensures |a| <= |b|
    decreases |a|
  {
    if a != {} {
      var x :| x in a;
      SubsetNoLarger(a - {x}, b - {x});
    }
  }

  lemma RunningKeysBound(m: Cleaners)
    ensures |RunningKeys(m)| <= |m|
    ensures |RunningKeys(m)| == |m| <==> forall k :: k in m ==> m[k].running
  {
    var running := RunningKeys(m);
    assert running <= m.Keys;
    SubsetNoLarger(running, m.Keys);
    assert |m.Keys| == |m|;
    if running != m.Keys {
      assert exists k :: k in m.Keys && k !in running;
      var k :| k in m.Keys && k !in running;
      assert running <= m.Keys - {k};
      SubsetNoLarger(running, m.Keys - {k});
      assert |m.Keys - {k}| == |m.Keys| - 1;
      assert !m[k].running;
    } else {
      assert forall k :: k in m ==> k in running;
    }
  }

  /** Removing one more bucket at shutdown adds it to the warned ones exactly when its dispose throws. */
  lemma WarnedStep(all: set<string>, left: set<string>, throws: set<string>, key: string)
    requires key in left && left <= all
    ensures (all - (left - {key})) * throws == (all - left) * throws + (if key in throws then {key} else {})
  {
  }

  class LostTransactionManager {
    const clientUuid: string
    var discoveredBuckets: Cleaners
    /** The free permits of `_timerCallbackMutex`, a semaphore created with one. */
    var permits: nat

    /** The given client uuid, or a freshly generated one (`freshGuid`) when none is given. */
    constructor (clientUuid: Option<string>, freshGuid: string)
      ensures this.clientUuid == (if clientUuid.Some? then clientUuid.value else freshGuid)
      ensures clientUuid.Some? ==> this.clientUuid == clientUuid.value
      ensures discoveredBuckets == map[] && permits == 1
    {
      this.clientUuid := if clientUuid.Some? then clientUuid.value else freshGuid;
      discoveredBuckets := map[];
      permits := 1;
    }

    function DiscoveredBucketCount(): nat
      reads this
    {
      |discoveredBuckets|
    }

    /** The number of running cleaners; never more than the cleaners known. */
    function RunningCount(): (n: nat)
      reads this
      ensures n <= DiscoveredBucketCount()
      ensures n == DiscoveredBucketCount() <==> forall k :: k in discoveredBuckets ==> discoveredBuckets[k].running
    {
      RunningKeysBound(discoveredBuckets);
      |RunningKeys(discoveredBuckets)|
    }

    /** The sum of every cleaner's run count, visiting the cleaners one by one. */
    method TotalRunCount() returns (total: nat)
      ensures total == SumRuns(discoveredBuckets)
    {
      total := 0;
      var rest := discoveredBuckets;
      while rest != map[]
        invariant total + SumRuns(rest) == SumRuns(discoveredBuckets)
        decreases |rest|
      {
        var k :| k in rest;
        SumRunsRemove(rest, k);
        total := total + rest[k].runCount;
        rest := rest - {k};
      }
    }

    /**
     * One discovery round. When the mutex wait does not pass nothing changes;
     * otherwise stopped cleaners are dropped and each listed bucket without a
     * cleaner gets one from `cleanerFor`, until making one fails. A failed
     * listing (None) or a failed cleaner is caught; what was done before it
     * stays. The permit taken is released at the end; a round whose wait
     * did not pass releases nothing (as written it releases anyway, see
     * `PermitsAfterDiscoveryAsWritten`).
     */
    method DiscoverBuckets(passed: bool, listing: Option<seq<string>>, cleanerFor: string -> Option<Cleaner>)
      requires passed ==> permits > 0
      modifies this
      ensures !passed ==> discoveredBuckets == old(discoveredBuckets)
      ensures passed ==> discoveredBuckets == Reconciled(old(discoveredBuckets), listing, cleanerFor)
      ensures permits == PermitsAfterDiscovery(old(permits), passed)
      ensures permits == old(permits)
    {
      DiscoveryKeepsPermits(permits, passed);
      if !passed {
        return;
      }
      permits := permits - 1;
      ghost var original := discoveredBuckets;
      var snapshot := discoveredBuckets.Keys;
      while snapshot != {}
        invariant snapshot <= original.Keys
        invariant permits == old(permits) - 1
        invariant discoveredBuckets == map k | k in original && (k in snapshot || original[k].running) :: original[k]
        decreases |snapshot|
      {
        var key :| key in snapshot;
        if !discoveredBuckets[key].running {
          discoveredBuckets := discoveredBuckets - {key};
        }
        snapshot := snapshot - {key};
      }
      assert discoveredBuckets == WithoutStopped(original);
      if listing.None? {
        permits := permits + 1;
        return;
      }
      var buckets := listing.value;
      var i := 0;
      while i < |buckets|
        invariant 0 <= i <= |buckets|
        invariant AddMissing(discoveredBuckets, buckets[i..], cleanerFor) == AddMissing(WithoutStopped(original), buckets, cleanerFor)
        invariant permits == old(permits) - 1
      {
        var name := buckets[i];
        assert buckets[i..][0] == name && buckets[i..][1..] == buckets[i + 1..];
        if name !in discoveredBuckets {
          var made := cleanerFor(name);
          if made.None? {
            permits := permits + 1;
            return;
          }
          discoveredBuckets := discoveredBuckets[name := made.value];
        }
        i := i + 1;
      }
      permits := permits + 1;
    }

    /**
     * Shutdown: disposes every cleaner and removes it even when its dispose
     * throws. Returns the buckets whose dispose threw (they are logged).
     */
    method RemoveClientEntries(disposeThrows: set<string>) returns (warned: set<string>)
      modifies this
      ensures discoveredBuckets == map[] && permits == old(permits)
      ensures warned == old(discoveredBuckets).Keys * disposeThrows
    {
      warned := {};
      ghost var original := discoveredBuckets;
      while discoveredBuckets != map[]
        invariant discoveredBuckets.Keys <= original.Keys
        invariant warned == (original.Keys - discoveredBuckets.Keys) * disposeThrows
        invariant permits == old(permits)
        decreases |discoveredBuckets.Keys|
      {
        var buckets := discoveredBuckets.Keys;
        while buckets != {}
          invariant buckets == discoveredBuckets.Keys && buckets <= original.Keys
          invariant warned == (original.Keys - discoveredBuckets.Keys) * disposeThrows
          invariant permits == old(permits)
          decreases |buckets|
        {
          var key :| key in buckets;
          WarnedStep(original.Keys, buckets, disposeThrows, key);
          var threw := ShutDownCleaner(key, disposeThrows);
          if threw {
            warned := warned + {key};
          }
          buckets := buckets - {key};
        }
      }
    }

    /** Disposes one cleaner and removes it whether or not its dispose throws; says whether it threw. */
    method ShutDownCleaner(key: string, disposeThrows: set<string>) returns (threw: bool)
      modifies this
      ensures discoveredBuckets == old(discoveredBuckets) - {key} && permits == old(permits)
      ensures threw == (key in disposeThrows)
    {
      threw := key in disposeThrows;
      discoveredBuckets := discoveredBuckets - {key};
    }
  }
}
