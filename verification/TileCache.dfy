/**
 The two-level tile cache: Redis in front of files on disk (services/renderer/cache.py). Either tier may fail at any
 call and Redis forgets at any time; the cache is compared with the plain record of what was stored.
 */
module TileCache {
  import opened Basics

  newtype Byte = b: int | 0 <= b < 256
  type Bytes = seq<Byte>
  type Key = nat

  /** Files of this size or less are not served. */
  const SMALLEST: nat := 500

  datatype Tiers = Tiers(connected: bool, redis: map<Key, Bytes>, disk: map<Key, Bytes>,
                         redisHits: nat, diskHits: nat, misses: nat)

  /** How writing a file ends: complete, not even opened, or cut off after `n` bytes; opening truncates the old file. */
  datatype DiskWrite = Written | NotOpened | Torn(n: nat)

  datatype Op =
    | Get(key: Key, redisReads: bool, diskReads: bool, redisWrites: bool)
    | Set(key: Key, value: Bytes, redisWrites: bool, disk: DiskWrite)
    | Expire(key: Key)

  function Opened(connected: bool, disk: map<Key, Bytes>): Tiers {
    Tiers(connected, map[], disk, 0, 0, 0)
  }

  predicate RedisAnswers(t: Tiers, key: Key, redisReads: bool) {
    t.connected && redisReads && key in t.redis && t.redis[key] != []
  }

  predicate DiskAnswers(t: Tiers, key: Key, diskReads: bool) {
    diskReads && key in t.disk && |t.disk[key]| > SMALLEST
  }

  function Answer(t: Tiers, op: Op): Option<Bytes>
    requires op.Get?
  {
    if RedisAnswers(t, op.key, op.redisReads) then Some(t.redis[op.key])
    else if DiskAnswers(t, op.key, op.diskReads) then Some(t.disk[op.key])
    else None
  }

  /** Redis stores a value or does not; an unconnected client is never asked. */
  function RedisSet(t: Tiers, key: Key, value: Bytes, writes: bool): Tiers {
    if t.connected && writes then t.(redis := t.redis[key := value]) else t
  }

  function DiskSet(t: Tiers, key: Key, value: Bytes, write: DiskWrite): Tiers {
    match write
    case Written => t.(disk := t.disk[key := value])
    case NotOpened => t
    case Torn(n) => t.(disk := t.disk[key := value[..Min(n, |value|)]])
  }

  function Step(t: Tiers, op: Op): Tiers {
    match op
    case Get(key, redisReads, diskReads, redisWrites) =>
      if RedisAnswers(t, key, redisReads) then t.(redisHits := t.redisHits + 1)
      else if DiskAnswers(t, key, diskReads) then
        RedisSet(t.(diskHits := t.diskHits + 1), key, t.disk[key], redisWrites)
      else t.(misses := t.misses + 1)
    case Set(key, value, redisWrites, write) => DiskSet(RedisSet(t, key, value, redisWrites), key, value, write)
    case Expire(key) => t.(redis := t.redis - {key})
  }

  class TieredCache {
    const connected: bool
    var redis: map<Key, Bytes>
    var disk: map<Key, Bytes>
    var redisHits: nat
    var diskHits: nat
    var misses: nat

    function View(): Tiers
      reads this
    {
      Tiers(connected, redis, disk, redisHits, diskHits, misses)
    }

    /** The directory may already hold files of an earlier process. */
    constructor (connected: bool, disk: map<Key, Bytes>)
      ensures View() == Opened(connected, disk)
      ensures this.connected == connected && redis == map[] && this.disk == disk
      ensures redisHits == diskHits == misses == 0
    {
      this.connected, this.disk := connected, disk;
      redis, redisHits, diskHits, misses := map[], 0, 0, 0;
    }

    method Get(key: Key, redisReads: bool, diskReads: bool, redisWrites: bool) returns (r: Option<Bytes>)
      modifies this
      ensures r == Answer(old(View()), Op.Get(key, redisReads, diskReads, redisWrites))
      ensures View() == Step(old(View()), Op.Get(key, redisReads, diskReads, redisWrites))
      ensures var inRedis := connected && redisReads && key in old(redis) && old(redis)[key] != [];
              var onDisk := !inRedis && diskReads && key in disk && |disk[key]| > 500;
              && r == (if inRedis then Some(old(redis)[key]) else if onDisk then Some(disk[key]) else None)
              && redis == (if onDisk && connected && redisWrites then old(redis)[key := disk[key]] else old(redis))
              && redisHits == old(redisHits) + (if inRedis then 1 else 0)
              && diskHits == old(diskHits) + (if onDisk then 1 else 0)
              && misses == old(misses) + (if inRedis || onDisk then 0 else 1)
      ensures disk == old(disk)
    {
      if connected {
        if redisReads && key in redis && |redis[key]| > 0 {
          redisHits := redisHits + 1;
          return Some(redis[key]);
        }
      }
      if key in disk && diskReads {
        var data := disk[key];
        if |data| > SMALLEST {
          diskHits := diskHits + 1;
          BackfillRedis(key, data, redisWrites);
          return Some(data);
        }
      }
      misses := misses + 1;
      return None;
    }

    method Set(key: Key, value: Bytes, redisWrites: bool, write: DiskWrite)
      modifies this
      ensures View() == Step(old(View()), Op.Set(key, value, redisWrites, write))
      ensures redis == if connected && redisWrites then old(redis)[key := value] else old(redis)
      ensures write == Written ==> disk == old(disk)[key := value]
      ensures write == NotOpened ==> disk == old(disk)
      ensures write.Torn? ==> disk == old(disk)[key := if write.n < |value| then value[..write.n] else value]
      ensures redisHits == old(redisHits) && diskHits == old(diskHits) && misses == old(misses)
    {
      if connected && redisWrites {
        redis := redis[key := value];
      }
      match write
      case Written => disk := disk[key := value];
      case NotOpened =>
      case Torn(n) =>
        disk := disk[key := value[..Min(n, |value|)]];
        assert n >= |value| ==> value[..|value|] == value;
    }

    method BackfillRedis(key: Key, data: Bytes, writes: bool)
      modifies this`redis
      ensures View() == RedisSet(old(View()), key, data, writes)
      ensures redis == if connected && writes then old(redis)[key := data] else old(redis)
    {
      if connected && writes {
        redis := redis[key := data];
      }
    }

    /** Redis drops an entry on its own, when its time to live is over or memory runs out. */
    method ExpireEntry(key: Key)
      modifies this`redis
      ensures View() == Step(old(View()), Expire(key))
      ensures redis == old(redis) - {key}
    {
      redis := redis - {key};
    }

    /** The counters, and the share of gets that were hits, rounded to four decimals. */
    method Stats() returns (redisHits: nat, diskHits: nat, misses: nat, hitRatio: real)
      ensures redisHits == this.redisHits && diskHits == this.diskHits && misses == this.misses
      ensures 0.0 <= hitRatio <= 1.0
      ensures (hitRatio * 10000.0).Floor as real == hitRatio * 10000.0
      ensures var total := redisHits + diskHits + misses;
              if total == 0 then hitRatio == 0.0
              else -0.00005 * total as real <= hitRatio * total as real - (redisHits + diskHits) as real
                                            <= 0.00005 * total as real
    {
      redisHits, diskHits, misses := this.redisHits, this.diskHits, this.misses;
      var hits, total := redisHits + diskHits, Max(1, redisHits + diskHits + misses);
      var n := DividedAndRounded(10000 * hits, total);
      RoundedShare(hits, total, n);
      hitRatio := n as real / 10000.0;
    }
  }

  lemma ShareInRange(hits: nat, total: nat, n: int)
    requires 0 < total && hits <= total
    requires 20000 * hits - total <= 2 * total * n <= 20000 * hits + total
    ensures 0 <= n <= 10000 && (hits == 0 ==> n == 0)
  {
    var m := n * total;
    assert 2 * total * n == 2 * m;
    if n < 0 {
      Scaled(n, -1, total);
    } else if n > 10000 {
      Scaled(10001, n, total);
    } else if n > 0 {
      Scaled(1, n, total);
    }
  }

  lemma RoundedShare(hits: nat, total: nat, n: int)
    requires 0 < total && hits <= total
    requires 20000 * hits - total <= 2 * total * n <= 20000 * hits + total
    ensures 0 <= n <= 10000 && (hits == 0 ==> n == 0)
    ensures var error := n as real / 10000.0 * total as real - hits as real;
            -0.00005 * total as real <= error <= 0.00005 * total as real
  {
    ShareInRange(hits, total, n);
    var m := total * n;
    assert 2 * total * n == 2 * m;
    assert n as real / 10000.0 * total as real == m as real / 10000.0;
  }

  // ---------------------------------------------------------------- only what was stored comes back

  function After(t: Tiers, trace: seq<Op>): Tiers
    decreases |trace|
  {
    if trace == [] then t else After(Step(t, trace[0]), trace[1..])
  }

  lemma {:induction false} AfterSnoc(t: Tiers, trace: seq<Op>, op: Op)
    ensures After(t, trace + [op]) == Step(After(t, trace), op)
    decreases |trace|
  {
    if trace == [] {
      assert [op][1..] == [];
    } else {
      assert (trace + [op])[1..] == trace[1..] + [op];
      AfterSnoc(Step(t, trace[0]), trace[1..], op);
    }
  }

  /** Facts of the outside world: which bytes belong to which key. */
  type Truth = iset<(Key, Bytes)>

  /** Redis holds true values; a file is true or too small to be served. */
  ghost predicate Faithful(t: Tiers, truth: Truth) {
    && (forall k :: k in t.redis ==> (k, t.redis[k]) in truth)
    && (forall k :: k in t.disk ==> (k, t.disk[k]) in truth || |t.disk[k]| <= SMALLEST)
  }

  /** A write cut off in the middle, of which enough remains to be served, and which is not itself a true value. */
  ghost predicate Harmful(op: Op, truth: Truth) {
    op.Set? && op.disk.Torn? && SMALLEST < op.disk.n < |op.value| && (op.key, op.value[..op.disk.n]) !in truth
  }

  ghost predicate Stores(op: Op, truth: Truth) {
    op.Set? ==> (op.key, op.value) in truth
  }

  lemma StepFaithful(t: Tiers, op: Op, truth: Truth)
    requires Faithful(t, truth) && Stores(op, truth) && !Harmful(op, truth)
    ensures Faithful(Step(t, op), truth)
    ensures op.Get? && Answer(t, op).Some? ==> (op.key, Answer(t, op).value) in truth
  {
    if op.Set? && op.disk.Torn? && op.disk.n >= |op.value| {
      assert op.value[..|op.value|] == op.value;
    }
  }

  /** Any get at this moment, whatever tier answers it, gives nothing or bytes that belong to its key. */
  ghost predicate Truthful(t: Tiers, truth: Truth) {
    forall op: Op :: op.Get? && Answer(t, op).Some? ==> (op.key, Answer(t, op).value) in truth
  }

  ghost predicate TruthfulThroughout(t: Tiers, trace: seq<Op>, truth: Truth)
    decreases |trace|
  {
    Truthful(t, truth) && (trace == [] || TruthfulThroughout(Step(t, trace[0]), trace[1..], truth))
  }

  lemma FaithfulIsTruthful(t: Tiers, truth: Truth)
    requires Faithful(t, truth)
    ensures Truthful(t, truth)
  {
    forall op: Op | op.Get? && Answer(t, op).Some?
      ensures (op.key, Answer(t, op).value) in truth
    {
      StepFaithful(t, op, truth);
    }
  }

  /** A file cut off that far is served as if it were the tile, as soon as Redis does not answer. */
  lemma TornFileIsServed(t: Tiers, op: Op, truth: Truth)
    requires Harmful(op, truth)
    ensures Answer(Step(t, op), Get(op.key, false, true, false)) == Some(op.value[..op.disk.n])
    ensures !Truthful(Step(t, op), truth)
  {
    var get := Get(op.key, false, true, false);
    assert Answer(Step(t, op), get) == Some(op.value[..op.disk.n]);
  }

  ghost predicate NoHarm(trace: seq<Op>, truth: Truth)
    decreases |trace|
  {
    trace == [] || (!Harmful(trace[0], truth) && NoHarm(trace[1..], truth))
  }

  ghost predicate AllStore(trace: seq<Op>, truth: Truth)
    decreases |trace|
  {
    trace == [] || (Stores(trace[0], truth) && AllStore(trace[1..], truth))
  }

  /**
   Under any failures of either tier and any expiry, gets give nothing or bytes that belong to their key at every
   moment, if and only if no write leaves a file cut off above the serving size that is not a true value itself.
   */
  lemma {:induction false} OnlyStoredBytes(t: Tiers, trace: seq<Op>, truth: Truth)
    requires Faithful(t, truth) && AllStore(trace, truth)
    ensures TruthfulThroughout(t, trace, truth) <==> NoHarm(trace, truth)
    decreases |trace|
  {
    FaithfulIsTruthful(t, truth);
    if trace != [] {
      if Harmful(trace[0], truth) {
        TornFileIsServed(t, trace[0], truth);
      } else {
        StepFaithful(t, trace[0], truth);
        OnlyStoredBytes(Step(t, trace[0]), trace[1..], truth);
      }
    }
  }

  // ---------------------------------------------------------------- the last stored value comes back

  /** What a plain map would hold. */
  function LastSet(last: map<Key, Bytes>, op: Op): map<Key, Bytes> {
    if op.Set? then last[op.key := op.value] else last
  }

  function LastSets(last: map<Key, Bytes>, trace: seq<Op>): map<Key, Bytes>
    decreases |trace|
  {
    if trace == [] then last else LastSets(LastSet(last, trace[0]), trace[1..])
  }

  ghost predicate Coherent(t: Tiers, last: map<Key, Bytes>) {
    && (forall k :: k in last <==> k in t.disk)
    && (forall k :: k in last ==> |last[k]| > SMALLEST && t.disk[k] == last[k])
    && (forall k :: k in t.redis ==> t.connected && k in last && t.redis[k] == last[k])
  }

  /** A set whose writes both succeed, of a value large enough to be served. */
  predicate Sound(t: Tiers, op: Op) {
    op.Set? ==> |op.value| > SMALLEST && (t.connected ==> op.redisWrites) && op.disk.Written?
  }

  lemma StepCoherent(t: Tiers, op: Op, last: map<Key, Bytes>)
    requires Coherent(t, last) && Sound(t, op)
    ensures Coherent(Step(t, op), LastSet(last, op))
    ensures Step(t, op).connected == t.connected
  {
  }

  /**
   If every set writes both tiers, a get answers exactly what a plain map would, through any expiry, any failing read of
   Redis and any failing backfill. Only a failing disk read can turn an answer into a miss.
   */
  lemma {:induction false} AgreesWithMap(t: Tiers, trace: seq<Op>, last: map<Key, Bytes>, op: Op)
    requires Coherent(t, last) && op.Get?
    requires forall k :: 0 <= k < |trace| ==> Sound(t, trace[k])
    ensures var t', m := After(t, trace), LastSets(last, trace);
            && Coherent(t', m)
            && (op.diskReads ==> Answer(t', op) == if op.key in m then Some(m[op.key]) else None)
            && (!op.diskReads ==> Answer(t', op).Some? ==> op.key in m && Answer(t', op) == Some(m[op.key]))
    decreases |trace|
  {
    if trace != [] {
      StepCoherent(t, trace[0], last);
      assert Sound(t, trace[0]);
      forall k | 0 <= k < |trace[1..]| ensures Sound(Step(t, trace[0]), trace[1..][k]) {
        assert trace[1..][k] == trace[k + 1];
      }
      AgreesWithMap(Step(t, trace[0]), trace[1..], LastSet(last, trace[0]), op);
    }
  }

  /**
   A set whose Redis write is lost is hidden by the older entry: the next get sees the new value exactly if Redis does
   not answer it or held the same bytes.
   */
  lemma LostRedisWriteIsStale(t: Tiers, last: map<Key, Bytes>, key: Key, value: Bytes, redisReads: bool, backfill: bool)
    requires Coherent(t, last) && |value| > SMALLEST
    ensures var t' := Step(t, Set(key, value, false, Written));
            Answer(t', Get(key, redisReads, true, backfill)) == Some(value) <==>
            !t.connected || !redisReads || key !in t.redis || t.redis[key] == value
  {
  }

  /** A tile of exactly 500 bytes is accepted by the fetcher but never served from disk: it is fetched every time. */
  lemma SmallestTileNeverServed(t: Tiers, key: Key, value: Bytes, redisReads: bool, backfill: bool)
    requires |value| == SMALLEST && key !in t.redis
    ensures Answer(Step(t, Set(key, value, false, Written)), Get(key, redisReads, true, backfill)) == None
  {
  }

  /** How many gets of the trace are answered, or not. */
  function Count(t: Tiers, trace: seq<Op>, answered: bool): nat
    decreases |trace|
  {
    if trace == [] then 0
    else (if trace[0].Get? && Answer(t, trace[0]).Some? == answered then 1 else 0) +
         Count(Step(t, trace[0]), trace[1..], answered)
  }

  function Gets(trace: seq<Op>): nat {
    if trace == [] then 0 else (if trace[0].Get? then 1 else 0) + Gets(trace[1..])
  }

  /** The hits are the gets that were answered, the misses the others; every completed get is counted once. */
  lemma {:induction false} EveryGetIsCounted(t: Tiers, trace: seq<Op>)
    ensures var t' := After(t, trace);
            && t'.redisHits + t'.diskHits == t.redisHits + t.diskHits + Count(t, trace, true)
            && t'.misses == t.misses + Count(t, trace, false)
            && Count(t, trace, true) + Count(t, trace, false) == Gets(trace)
    decreases |trace|
  {
    if trace != [] {
      EveryGetIsCounted(Step(t, trace[0]), trace[1..]);
    }
  }
}
