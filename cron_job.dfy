/**
 * The scheduled sweep of the status cache (hydroalert-backend/src/utils/cronJob.js): every
 * entry of the `latest_device_status` hash last updated more than 15 minutes ago is removed,
 * together with that device's `last_raw:<deviceID>` key, and the removals are counted.
 *
 * The cache is a `RedisCache` object: the hash as a map from deviceID to its parsed entry, and
 * the plain string keys as a map from key to value. The schedule itself and the log lines are
 * not modelled.
 */
module CronJob {
  import opened Models

  /** Entries idle for strictly longer than this are removed. */
  const StaleMs: int := 15 * 60 * 1000

  predicate IsStale(e: CacheEntry, now: int) {
    now - e.updatedAt > StaleMs
  }

  /** The string key holding a device's last raw reading. */
  function RawKey(deviceID: string): string {
    "last_raw:" + deviceID
  }

  /** The devices whose entry the sweep removes. */
  function StaleIDs(hash: map<string, CacheEntry>, now: int): set<string> {
    set id | id in hash && IsStale(hash[id], now)
  }

  /** The hash after the sweep. */
  function KeptEntries(hash: map<string, CacheEntry>, now: int): map<string, CacheEntry> {
    map id | id in hash && !IsStale(hash[id], now) :: hash[id]
  }

  function RawKeys(ids: set<string>): set<string> {
    set id | id in ids :: RawKey(id)
  }

  /** The hash while the loop runs: stale entries not yet visited are still there. */
  function PartlySwept(hash: map<string, CacheEntry>, now: int, remaining: set<string>): map<string, CacheEntry> {
    map id | id in hash && (id in remaining || !IsStale(hash[id], now)) :: hash[id]
  }

  /** Visiting a stale device removes its entry and adds it to the deleted ones. */
  lemma SweepStepStale(hash: map<string, CacheEntry>, now: int, remaining: set<string>, deviceID: string)
    requires deviceID in remaining && deviceID in hash && IsStale(hash[deviceID], now)
    ensures PartlySwept(hash, now, remaining - {deviceID}) == PartlySwept(hash, now, remaining) - {deviceID}
    ensures StaleIDs(hash, now) - (remaining - {deviceID}) == (StaleIDs(hash, now) - remaining) + {deviceID}
    ensures deviceID !in StaleIDs(hash, now) - remaining
    ensures RawKeys((StaleIDs(hash, now) - remaining) + {deviceID}) ==
      RawKeys(StaleIDs(hash, now) - remaining) + {RawKey(deviceID)}
  {
  }

  /** Deleting one more raw key is deleting the raw keys of one more device. */
  lemma DeleteRawKey(strings: map<string, string>, ids: set<string>, deviceID: string)
    ensures strings - RawKeys(ids) - {RawKey(deviceID)} == strings - RawKeys(ids + {deviceID})
  {
    assert RawKeys(ids + {deviceID}) == RawKeys(ids) + {RawKey(deviceID)};
  }

  /** Visiting a recent device changes nothing. */
  lemma SweepStepKept(hash: map<string, CacheEntry>, now: int, remaining: set<string>, deviceID: string)
    requires deviceID in remaining && deviceID in hash && !IsStale(hash[deviceID], now)
    ensures PartlySwept(hash, now, remaining - {deviceID}) == PartlySwept(hash, now, remaining)
    ensures StaleIDs(hash, now) - (remaining - {deviceID}) == StaleIDs(hash, now) - remaining
  {
  }

  /** Before the loop nothing is swept; after it, exactly the stale entries are gone. */
  lemma SweepBounds(hash: map<string, CacheEntry>, now: int)
    ensures PartlySwept(hash, now, hash.Keys) == hash
    ensures StaleIDs(hash, now) - hash.Keys == {}
    ensures PartlySwept(hash, now, {}) == KeptEntries(hash, now)
    ensures StaleIDs(hash, now) - {} == StaleIDs(hash, now)
    ensures RawKeys({}) == {}
    ensures hash == map[] ==> StaleIDs(hash, now) == {} && KeptEntries(hash, now) == hash
  {
  }

  class RedisCache {
    /** The `latest_device_status` hash. */
    var latestDeviceStatus: map<string, CacheEntry>
    /** The plain string keys, among them the `last_raw:*` keys. */
    var strings: map<string, string>

    constructor (hash: map<string, CacheEntry>, keys: map<string, string>)
      ensures latestDeviceStatus == hash && strings == keys
    {
      latestDeviceStatus := hash;
      strings := keys;
    }

    /**
     * One run of the job at time `now`: an empty hash returns at once; otherwise each stale
     * device is removed from the hash, its raw key is deleted and the count goes up by one.
     */
    method Sweep(now: int) returns (deletedCount: nat)
      modifies this
      ensures latestDeviceStatus == KeptEntries(old(latestDeviceStatus), now)
      ensures strings == old(strings) - RawKeys(StaleIDs(old(latestDeviceStatus), now))
      ensures deletedCount == |StaleIDs(old(latestDeviceStatus), now)|
    {
      var allData := latestDeviceStatus;
      var deviceIDs := allData.Keys;
      SweepBounds(allData, now);
      if |deviceIDs| == 0 {
        assert allData == map[];
        assert strings - {} == strings;
        return 0;
      }
      deletedCount := 0;
      var remaining := deviceIDs;
      while remaining != {}
        invariant remaining <= deviceIDs
        invariant latestDeviceStatus == PartlySwept(allData, now, remaining)
        invariant strings == old(strings) - RawKeys(StaleIDs(allData, now) - remaining)
        invariant deletedCount == |StaleIDs(allData, now) - remaining|
        decreases |remaining|
      {
        var deviceID :| deviceID in remaining;
        var data := allData[deviceID];
        if now - data.updatedAt > StaleMs {
          SweepStepStale(allData, now, remaining, deviceID);
          DeleteRawKey(old(strings), StaleIDs(allData, now) - remaining, deviceID);
          latestDeviceStatus := latestDeviceStatus - {deviceID};
          strings := strings - {RawKey(deviceID)};
          deletedCount := deletedCount + 1;
        } else {
          SweepStepKept(allData, now, remaining, deviceID);
        }
        remaining := remaining - {deviceID};
      }
    }
  }

  /** Every entry left behind is at most 15 minutes old; one exactly 15 minutes old stays. */
  lemma KeptAreRecent(hash: map<string, CacheEntry>, now: int)
    ensures forall id :: id in KeptEntries(hash, now) ==> now - KeptEntries(hash, now)[id].updatedAt <= StaleMs
    ensures forall id :: id in hash && now - hash[id].updatedAt == StaleMs ==>
      id in KeptEntries(hash, now) && KeptEntries(hash, now)[id] == hash[id]
    ensures KeptEntries(hash, now).Keys + StaleIDs(hash, now) == hash.Keys
  {
  }

  /** A second sweep at the same time finds nothing to delete and changes nothing. */
  lemma SweepIdempotent(hash: map<string, CacheEntry>, now: int)
    ensures StaleIDs(KeptEntries(hash, now), now) == {}
    ensures KeptEntries(KeptEntries(hash, now), now) == KeptEntries(hash, now)
  {
  }

  /** The raw key of a kept device is never deleted: distinct ids have distinct raw keys. */
  lemma RawKeysOfOthersUntouched(ids: set<string>, deviceID: string)
    requires deviceID !in ids
    ensures RawKey(deviceID) !in RawKeys(ids)
  {
    forall id | id in ids ensures RawKey(id) != RawKey(deviceID) {
      RawKeyInjective(id, deviceID);
    }
  }

  lemma RawKeyInjective(a: string, b: string)
    ensures RawKey(a) == RawKey(b) <==> a == b
  {
    assert RawKey(a)[9..] == a;
    assert RawKey(b)[9..] == b;
  }
}
