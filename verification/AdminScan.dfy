/** The admin endpoints that walk over all keys: namespace statistics, key counts, and bulk deletion. */
module AdminScan {
  import opened Wrappers
  import opened KeyCodec
  import opened ScanSelection

  // ------------------------------------------------------------------
  // Statistics
  // ------------------------------------------------------------------

  datatype NsStats = NsStats(total: nat, byType: map<string, nat>)

  function CountOf(m: map<string, nat>, k: string): nat {
    if k in m then m[k] else 0
  }

  function AddKey(stats: map<string, NsStats>, redisKey: string): map<string, NsStats> {
    if !IsStorageKey(redisKey) then stats
    else
      var p := PyParse(redisKey).value;
      var entry := if p.ns in stats then stats[p.ns] else NsStats(0, map[]);
      stats[p.ns := NsStats(entry.total + 1, entry.byType[p.prefix := CountOf(entry.byType, p.prefix) + 1])]
  }

  function StatsOf(keys: seq<string>): map<string, NsStats> {
    if keys == [] then map[] else AddKey(StatsOf(keys[..|keys| - 1]), keys[|keys| - 1])
  }

  function AddCount(counts: map<string, nat>, redisKey: string): map<string, nat> {
    if !IsStorageKey(redisKey) then counts
    else
      var ns := PyParse(redisKey).value.ns;
      counts[ns := CountOf(counts, ns) + 1]
  }

  function CountsOf(keys: seq<string>): map<string, nat> {
    if keys == [] then map[] else AddCount(CountsOf(keys[..|keys| - 1]), keys[|keys| - 1])
  }

  function Least(a: nat, b: nat): nat { if a < b then a else b }

  /** One pass over what the scan yields (a scan may yield a key twice), ended by the limit. Unless it reports
      truncation everything was counted; a pass over exactly limit keys counts everything and reports it too. */
  method GetStats(keys: seq<string>, limit: nat) returns (stats: map<string, NsStats>, scanned: nat, truncated: bool)
    requires limit >= 1
    ensures scanned == Least(|keys|, limit)
    ensures stats == StatsOf(keys[..scanned])
    ensures truncated <==> |keys| >= limit
    ensures |keys| <= limit ==> stats == StatsOf(keys)
  {
    stats, scanned := map[], 0;
    while scanned < |keys|
      invariant scanned <= |keys| && scanned < limit
      invariant stats == StatsOf(keys[..scanned])
    {
      var key := keys[scanned];
      assert keys[..scanned + 1][..scanned] == keys[..scanned];
      scanned := scanned + 1;
      match PyParse(key) {
        case None =>
          if scanned >= limit {
            break;
          }
          continue;
        case Some(p) =>
          if p.prefix in STORAGE_PREFIXES {
            if p.ns !in stats {
              stats := stats[p.ns := NsStats(0, map[])];
            }
            var entry := stats[p.ns];
            var byType := entry.byType[p.prefix := CountOf(entry.byType, p.prefix) + 1];
            stats := stats[p.ns := NsStats(entry.total + 1, byType)];
          }
      }
      if scanned >= limit {
        break;
      }
    }
    truncated := scanned >= limit;
    assert keys[..|keys|] == keys;
  }

  const COUNTED_KEYS := 5000

  /** The key counts of the metrics text: the same pass with a fixed limit. */
  method GetNsCounts(keys: seq<string>) returns (counts: map<string, nat>)
    ensures counts == CountsOf(keys[..Least(|keys|, 5000)])
  {
    counts := map[];
    var scanned := 0;
    while scanned < |keys|
      invariant scanned <= |keys| && scanned < COUNTED_KEYS
      invariant counts == CountsOf(keys[..scanned])
    {
      var key := keys[scanned];
      assert keys[..scanned + 1][..scanned] == keys[..scanned];
      match PyParse(key) {
        case None =>
          scanned := scanned + 1;
          if scanned >= COUNTED_KEYS {
            break;
          }
          continue;
        case Some(p) =>
          if p.prefix in STORAGE_PREFIXES {
            counts := counts[p.ns := CountOf(counts, p.ns) + 1];
          }
      }
      scanned := scanned + 1;
      if scanned >= COUNTED_KEYS {
        break;
      }
    }
  }

  // --- What the statistics say ---

  datatype Test = Stored | InNamespace(ns: string) | OfType(ns: string, prefix: string)

  predicate Passes(redisKey: string, test: Test) {
    && IsStorageKey(redisKey)
    && (test.Stored? || PyParse(redisKey).value.ns == test.ns)
    && (test.OfType? ==> PyParse(redisKey).value.prefix == test.prefix)
  }

  function Tally(keys: seq<string>, test: Test): nat {
    if keys == [] then 0 else Tally(keys[..|keys| - 1], test) + (if Passes(keys[|keys| - 1], test) then 1 else 0)
  }

  /** Every entry is a true count of the keys seen, and there is an entry for exactly what was seen. */
  lemma {:induction false} StatsAreCounts(keys: seq<string>, ns: string, prefix: string)
    ensures ns in StatsOf(keys) <==> Tally(keys, InNamespace(ns)) > 0
    ensures ns in StatsOf(keys) ==> StatsOf(keys)[ns].total == Tally(keys, InNamespace(ns))
    ensures ns in StatsOf(keys) ==> (prefix in StatsOf(keys)[ns].byType <==> Tally(keys, OfType(ns, prefix)) > 0)
    ensures ns in StatsOf(keys) ==> CountOf(StatsOf(keys)[ns].byType, prefix) == Tally(keys, OfType(ns, prefix))
    ensures ns !in StatsOf(keys) ==> Tally(keys, OfType(ns, prefix)) == 0
  {
    if keys != [] {
      StatsAreCounts(keys[..|keys| - 1], ns, prefix);
    }
  }

  ghost function Sum(m: map<string, nat>): nat {
    if m == map[] then 0
    else
      var k :| k in m;
      m[k] + Sum(m - {k})
  }

  lemma {:induction false} SumPicks(m: map<string, nat>, k: string)
    requires k in m
    ensures Sum(m) == m[k] + Sum(m - {k})
    decreases |m|
  {
    var j :| j in m && Sum(m) == m[j] + Sum(m - {j});
    if j != k {
      SumPicks(m - {j}, k);
      SumPicks(m - {k}, j);
      assert m - {j} - {k} == m - {k} - {j};
    }
  }

  lemma SumIncrement(m: map<string, nat>, k: string)
    ensures Sum(m[k := CountOf(m, k) + 1]) == Sum(m) + 1
  {
    var n := m[k := CountOf(m, k) + 1];
    SumPicks(n, k);
    assert n - {k} == m - {k};
    if k in m {
      SumPicks(m, k);
    } else {
      assert m - {k} == m;
    }
  }

  function Totals(stats: map<string, NsStats>): map<string, nat> {
    map ns | ns in stats :: stats[ns].total
  }

  ghost predicate TypesAddUp(stats: map<string, NsStats>) {
    forall ns :: ns in stats ==> Sum(stats[ns].byType) == stats[ns].total
  }

  lemma AddKeyAddsUp(stats: map<string, NsStats>, redisKey: string)
    requires TypesAddUp(stats) && IsStorageKey(redisKey)
    ensures TypesAddUp(AddKey(stats, redisKey))
  {
    var p := PyParse(redisKey).value;
    assert Sum(map[]) == 0;
    SumIncrement(if p.ns in stats then stats[p.ns].byType else map[], p.prefix);
  }

  lemma AddKeyTotals(stats: map<string, NsStats>, redisKey: string)
    requires IsStorageKey(redisKey)
    ensures Totals(AddKey(stats, redisKey)) == AddCount(Totals(stats), redisKey)
    ensures Sum(Totals(AddKey(stats, redisKey))) == Sum(Totals(stats)) + 1
  {
    SumIncrement(Totals(stats), PyParse(redisKey).value.ns);
  }

  /** In each namespace the counts by type add up to its total, and the totals add up to the storage keys
      seen. */
  lemma {:induction false} StatsAddUp(keys: seq<string>)
    ensures TypesAddUp(StatsOf(keys))
    ensures Sum(Totals(StatsOf(keys))) == Tally(keys, Stored)
  {
    if keys != [] {
      var before, key := StatsOf(keys[..|keys| - 1]), keys[|keys| - 1];
      StatsAddUp(keys[..|keys| - 1]);
      if IsStorageKey(key) {
        AddKeyAddsUp(before, key);
        AddKeyTotals(before, key);
      }
    }
  }

  /** The two walks agree: the counts of the metrics text are the totals of the statistics. */
  lemma {:induction false} CountsAreTotals(keys: seq<string>)
    ensures CountsOf(keys) == Totals(StatsOf(keys))
  {
    if keys != [] {
      CountsAreTotals(keys[..|keys| - 1]);
      if IsStorageKey(keys[|keys| - 1]) {
        AddKeyTotals(StatsOf(keys[..|keys| - 1]), keys[|keys| - 1]);
      }
    }
  }

  // ------------------------------------------------------------------
  // Bulk deletion
  // ------------------------------------------------------------------

  const DELETE_LIMIT := 10000
  const DELETE_BATCH := 100

  function StorageKeys(keys: seq<string>): seq<string> {
    if keys == [] then []
    else StorageKeys(keys[..|keys| - 1]) + (if IsStorageKey(keys[|keys| - 1]) then [keys[|keys| - 1]] else [])
  }

  /** Order and multiplicity: the storage keys of a scan are those of its parts one after the other, and a key
      is among them as often as in the scan, or not at all. */
  lemma {:induction false} StorageKeysConcat(a: seq<string>, b: seq<string>)
    ensures StorageKeys(a + b) == StorageKeys(a) + StorageKeys(b)
  {
    if b == [] {
      assert a + b == a;
    } else {
      var init, last := b[..|b| - 1], b[|b| - 1];
      StorageKeysConcat(a, init);
      assert (a + b)[..|a + b| - 1] == a + init && (a + b)[|a + b| - 1] == last;
      Regroup(StorageKeys(a), StorageKeys(init), if IsStorageKey(last) then [last] else []);
    }
  }

  lemma {:induction false} StorageKeysCount(scan: seq<string>, k: string)
    ensures multiset(StorageKeys(scan))[k] == if IsStorageKey(k) then multiset(scan)[k] else 0
  {
    if scan != [] {
      StorageKeysCount(scan[..|scan| - 1], k);
      assert scan == scan[..|scan| - 1] + [scan[|scan| - 1]];
    }
  }

  method Collect(scan: seq<string>, limit: nat) returns (doomed: seq<string>, truncated: bool)
    ensures doomed == StorageKeys(scan)[..Least(|StorageKeys(scan)|, limit)]
    ensures truncated <==> |StorageKeys(scan)| > limit
  {
    doomed, truncated := [], false;
    var i := 0;
    while i < |scan|
      invariant i <= |scan| && |doomed| <= limit
      invariant doomed == StorageKeys(scan[..i])
    {
      assert scan[..i + 1][..i] == scan[..i];
      StorageKeysGrow(scan, i + 1);
      var key := scan[i];
      i := i + 1;
      if !IsStorageKey(key) {
        continue;
      }
      if |doomed| >= limit {
        truncated := true;
        return;
      }
      doomed := doomed + [key];
    }
    assert scan[..|scan|] == scan;
  }

  lemma {:induction false} StorageKeysGrow(keys: seq<string>, i: nat)
    requires i <= |keys|
    ensures StorageKeys(keys[..i]) <= StorageKeys(keys)
    decreases |keys|
  {
    if i < |keys| {
      StorageKeysGrow(keys[..|keys| - 1], i);
      assert keys[..|keys| - 1][..i] == keys[..i];
    } else {
      assert keys[..i] == keys;
    }
  }

  function Elements(keys: seq<string>): set<string> { set k | k in keys }

  class Store {
    var keys: set<string>

    constructor (keys: set<string>)
      ensures this.keys == keys
    {
      this.keys := keys;
    }

    /** DEL of several keys: removes those that exist and reports how many. */
    method Del(batch: seq<string>) returns (n: nat)
      modifies this
      ensures keys == old(keys) - Elements(batch)
      ensures n == |old(keys) * Elements(batch)|
    {
      n := |keys * Elements(batch)|;
      keys := keys - Elements(batch);
    }

    /** Batch by batch: every collected entry goes to DEL exactly once and in order, no batch is empty or
        larger than the batch size, and the reported number is what disappeared. */
    method DelInBatches(doomed: seq<string>) returns (deleted: nat, batches: seq<seq<string>>)
      modifies this
      ensures Flatten(batches) == doomed
      ensures forall b :: 0 <= b < |batches| ==> 0 < |batches[b]| <= 100
      ensures forall b :: 0 <= b < |batches| - 1 ==> |batches[b]| == 100
      ensures keys == old(keys) - Elements(doomed)
      ensures deleted == |old(keys) * Elements(doomed)|
    {
      deleted, batches := 0, [];
      var i := 0;
      while i < |doomed|
        invariant i >= 0 && Sent(doomed, i, batches)
        invariant keys == old(keys) - Elements(doomed[..Least(i, |doomed|)])
        invariant deleted + |keys| == |old(keys)|
      {
        var batch := doomed[i..Least(i + DELETE_BATCH, |doomed|)];
        Partition(keys, Elements(batch));
        SendOne(doomed, i, batches);
        var n := Del(batch);
        deleted := deleted + n;
        batches := batches + [batch];
        i := i + DELETE_BATCH;
      }
      assert doomed[..|doomed|] == doomed;
      Partition(old(keys), Elements(doomed));
    }

    /** Collect what the scan yields, then delete it, unless this is a dry run. */
    method BulkDelete(ns: string, typeName: string, pattern: string, scan: seq<string>, dryRun: bool)
      returns (r: Result<Report, BulkError>)
      requires BuildScanPattern(ns, typeName, pattern).Ok? ==>
                 forall i :: 0 <= i < |scan| ==> Matches(BuildScanPattern(ns, typeName, pattern).value, scan[i])
      modifies this
      ensures match BuildScanPattern(ns, typeName, pattern)
        case Err(e) => r == Err(if PyValidNs(ns) then BadScan(e) else BadNamespace)
        case Ok(_) => if PyValidNs(ns) then r.Ok? else r == Err(BadNamespace)
      ensures r.Err? || dryRun ==> keys == old(keys)
      ensures keys <= old(keys)
      ensures r.Ok? && !dryRun ==> keys == old(keys) - Elements(StorageKeys(scan)[..Least(|StorageKeys(scan)|, 10000)])
      ensures forall k :: k in old(keys) && k !in keys ==> OnlyHere(k, ns, typeName) && k in scan
      ensures r.Ok? && dryRun ==> r.value.affected == Least(|StorageKeys(scan)|, 10000)
      ensures r.Ok? && !dryRun ==> r.value.affected == |old(keys)| - |keys|
      ensures r.Ok? && !dryRun && !r.value.truncated ==> forall k :: k in scan && IsStorageKey(k) ==> k !in keys
      ensures r.Ok? ==> (r.value.truncated <==> |StorageKeys(scan)| > 10000)
    {
      if !PyValidNs(ns) {
        return Err(BadNamespace);
      }
      var built := BuildScanPattern(ns, typeName, pattern);
      if built.Err? {
        return Err(BadScan(built.error));
      }
      var doomed, truncated := Collect(scan, DELETE_LIMIT);
      if dryRun {
        return Ok(Report(|doomed|, truncated));
      }
      StorageKeysAreScanned(scan);
      DoomedBelongHere(ns, typeName, pattern, scan);
      var deleted, _ := DelInBatches(doomed);
      Partition(old(keys), Elements(doomed));
      return Ok(Report(deleted, truncated));
    }
  }

  datatype Report = Report(affected: nat, truncated: bool)

  datatype BulkError = BadNamespace | BadScan(error: ScanError)

  /** A storage key of the namespace, of the type if one is given, and not an internal key. */
  predicate OnlyHere(redisKey: string, ns: string, typeName: string) {
    && IsStorageKey(redisKey) && !InternalKey(redisKey)
    && PyParse(redisKey).value.ns == ns
    && (typeName in {"string", "kv"} ==> PyParse(redisKey).value.prefix == "kv")
    && (typeName in {"hash", "map"} ==> PyParse(redisKey).value.prefix == "map")
    && (typeName in {"list", "queue", "q"} ==> PyParse(redisKey).value.prefix == "q")
    && (typeName in {"set", "group", "grp"} ==> PyParse(redisKey).value.prefix == "grp")
    && (typeName in {"zset", "rank"} ==> PyParse(redisKey).value.prefix == "rank")
    && (typeName in {"stream", "event", "evt"} ==> PyParse(redisKey).value.prefix == "evt")
  }

  lemma {:induction false} StorageKeysAreScanned(scan: seq<string>)
    ensures forall k :: k in StorageKeys(scan) <==> k in scan && IsStorageKey(k)
  {
    if scan != [] {
      StorageKeysAreScanned(scan[..|scan| - 1]);
      assert scan == scan[..|scan| - 1] + [scan[|scan| - 1]];
    }
  }

  lemma DoomedBelongHere(ns: string, typeName: string, pattern: string, scan: seq<string>)
    requires PyValidNs(ns) && BuildScanPattern(ns, typeName, pattern).Ok?
    requires forall i :: 0 <= i < |scan| ==> Matches(BuildScanPattern(ns, typeName, pattern).value, scan[i])
    ensures forall k :: k in StorageKeys(scan) ==> OnlyHere(k, ns, typeName)
  {
    StorageKeysAreScanned(scan);
    forall k | k in StorageKeys(scan)
      ensures OnlyHere(k, ns, typeName)
    {
      SelectionIsIsolated(ns, typeName, pattern, k);
      TypeNames(typeName);
    }
  }

  function Flatten(batches: seq<seq<string>>): seq<string> {
    if batches == [] then [] else Flatten(batches[..|batches| - 1]) + batches[|batches| - 1]
  }

  /** The batches hold the first i entries, in order, and are full unless they reached the end. */
  predicate Sent(doomed: seq<string>, i: nat, batches: seq<seq<string>>) {
    && Flatten(batches) == doomed[..Least(i, |doomed|)]
    && (forall b :: 0 <= b < |batches| ==> 0 < |batches[b]| <= DELETE_BATCH)
    && (forall b :: 0 <= b < |batches| - (if i < |doomed| then 0 else 1) ==> |batches[b]| == DELETE_BATCH)
  }

  lemma SendOne(doomed: seq<string>, i: nat, batches: seq<seq<string>>)
    requires i < |doomed| && Sent(doomed, i, batches)
    ensures var next := Least(i + DELETE_BATCH, |doomed|);
      && Sent(doomed, i + DELETE_BATCH, batches + [doomed[i..next]])
      && Elements(doomed[..next]) == Elements(doomed[..i]) + Elements(doomed[i..next])
  {
    var next := Least(i + DELETE_BATCH, |doomed|);
    assert doomed[..next] == doomed[..i] + doomed[i..next];
    assert (batches + [doomed[i..next]])[..|batches|] == batches;
  }

  lemma Partition(a: set<string>, b: set<string>)
    ensures |a * b| + |a - b| == |a|
  {
    assert a == a * b + (a - b);
  }
}
