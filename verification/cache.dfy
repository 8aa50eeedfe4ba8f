/**
 * The read-through cache in front of the upcoming-trainings query: one
 * slot, `training_list`, holding the serialized list with an expiry time
 * 900 seconds after it was computed.
 *
 * Time is a logical clock passed in by the caller (`now`), and so is the
 * calendar date the query calls "today".  The ghost counter `queries`
 * records how many times the repository was asked for the list.
 */
module TrainingCache {
  import opened Base
  import opened Calendar
  import opened TrainingEntity
  import opened Persistence
  import opened TrainingRepository

  const TrainingListCacheKey: string := "training_list"

  /** Fifteen minutes, in seconds. */
  const CacheExpiration: int := 900

  /** A stored value and the instant from which it no longer counts. */
  datatype CacheEntry = CacheEntry(value: seq<Projection>, expiresAt: Instant)

  predicate AllSerializable(ts: seq<TrainingData>) {
    forall i :: 0 <= i < |ts| ==> Serializable(ts[i])
  }

  /** The projections of a list of trainings, in order. */
  function SerializedList(ts: seq<TrainingData>): (r: seq<Projection>)
    requires AllSerializable(ts)
    ensures |r| == |ts|
  {
    if ts == [] then [] else [SerializeTraining(ts[0])] + SerializedList(ts[1..])
  }

  /** One projection per training, each at its training's position. */
  lemma {:induction false} SerializedListPointwise(ts: seq<TrainingData>)
    requires AllSerializable(ts)
    ensures forall i :: 0 <= i < |ts| ==> SerializedList(ts)[i] == SerializeTraining(ts[i])
  {
    if ts != [] {
      var tail := ts[1..];
      SerializedListPointwise(tail);
      var r, rest := SerializedList(ts), SerializedList(tail);
      assert r == [SerializeTraining(ts[0])] + rest;
      forall i | 1 <= i < |ts| ensures r[i] == SerializeTraining(ts[i]) {
        assert r[i] == rest[i - 1] && ts[i] == tail[i - 1];
      }
    }
  }

  /** Serializing one more training appends its projection. */
  lemma {:induction false} SerializedListAppend(ts: seq<TrainingData>, t: TrainingData)
    requires AllSerializable(ts) && Serializable(t)
    ensures AllSerializable(ts + [t])
    ensures SerializedList(ts + [t]) == SerializedList(ts) + [SerializeTraining(t)]
  {
    if ts != [] {
      assert (ts + [t])[1..] == ts[1..] + [t];
      SerializedListAppend(ts[1..], t);
    }
  }

  /** Serializing one more element of a list extends the serialized prefix. */
  lemma SerializedListPrefix(ts: seq<TrainingData>, i: nat)
    requires AllSerializable(ts) && i < |ts|
    ensures SerializedList(ts[..i + 1]) == SerializedList(ts[..i]) + [SerializeTraining(ts[i])]
  {
    assert ts[..i + 1] == ts[..i] + [ts[i]];
    SerializedListAppend(ts[..i], ts[i]);
  }

  /** Rows the table accepted have a date and a time, and so does every
      row the upcoming query returns from them. */
  lemma UpcomingSerializable(rows: seq<TrainingData>, today: CivilDate)
    requires AllComplete(rows)
    ensures AllSerializable(FindUpcomingTrainings(rows, today))
  {
    var r := FindUpcomingTrainings(rows, today);
    FindUpcomingTrainingsSpec(rows, today);
    forall i | 0 <= i < |r| ensures Serializable(r[i]) {
      assert r[i] in multiset(r);
      assert r[i] in multiset(rows);
      var j :| 0 <= j < |rows| && rows[j] == r[i];
    }
  }

  /** The list a miss computes: the serialized upcoming trainings. */
  function UpcomingList(rows: seq<TrainingData>, today: CivilDate): seq<Projection>
    requires AllComplete(rows)
  {
    UpcomingSerializable(rows, today);
    SerializedList(FindUpcomingTrainings(rows, today))
  }

  class TrainingCacheService {
    /** The store the upcoming query reads. */
    const repository: EntityManager
    /** The cache pool, keyed by item name. */
    var pool: map<string, CacheEntry>
    /** How many times the repository has been queried. */
    ghost var queries: nat

    /** The injected pool is kept as it is: a shared pool may already hold
        a fresh list from an earlier request. */
    constructor (repository: EntityManager, pool0: map<string, CacheEntry>)
      ensures this.repository == repository
      ensures pool == pool0 && queries == 0
    {
      this.repository := repository;
      pool := pool0;
      queries := 0;
    }

    /** The slot holds an entry that has not expired at `now`. */
    predicate Fresh(now: Instant)
      reads this
    {
      TrainingListCacheKey in pool && now < pool[TrainingListCacheKey].expiresAt
    }

    /** `getUpcomingTrainings`: a fresh entry is returned as it is, without
        touching the repository; otherwise the list is recomputed with one
        query, stored for 900 seconds and returned. */
    method GetUpcomingTrainings(today: CivilDate, now: Instant) returns (r: seq<Projection>)
      requires AllComplete(repository.Rows())
      modifies this
      ensures AllComplete(repository.Rows())
      ensures old(Fresh(now)) ==>
                r == old(pool[TrainingListCacheKey].value) && pool == old(pool) && queries == old(queries)
      ensures !old(Fresh(now)) ==>
                r == UpcomingList(repository.Rows(), today)
                && pool == old(pool)[TrainingListCacheKey := CacheEntry(r, now + CacheExpiration)]
                && queries == old(queries) + 1
    {
      if Fresh(now) {
        r := pool[TrainingListCacheKey].value;
      } else {
        var trainings := repository.Rows();
        queries := queries + 1;
        var upcoming := FindUpcomingTrainings(trainings, today);
        UpcomingSerializable(trainings, today);
        r := SerializeTrainings(upcoming);
        assert r == UpcomingList(trainings, today);
        pool := pool[TrainingListCacheKey := CacheEntry(r, now + CacheExpiration)];
        assert repository.Rows() == trainings;
      }
    }

    /** `refreshTrainingCache`: a supplied list is serialized and stored
        without a query; with no list the repository is queried whether or
        not the current entry is still fresh. */
    method RefreshTrainingCache(trainings: Option<seq<TrainingData>>, today: CivilDate, now: Instant)
      returns (r: seq<Projection>)
      requires AllComplete(repository.Rows())
      requires trainings.Some? ==> AllSerializable(trainings.value)
      modifies this
      ensures AllComplete(repository.Rows())
      ensures trainings.None? ==> r == UpcomingList(repository.Rows(), today) && queries == old(queries) + 1
      ensures trainings.Some? ==> r == SerializedList(trainings.value) && queries == old(queries)
      ensures pool == old(pool)[TrainingListCacheKey := CacheEntry(r, now + CacheExpiration)]
    {
      if trainings.None? {
        var rows := repository.Rows();
        queries := queries + 1;
        UpcomingSerializable(rows, today);
        r := StoreInCache(TrainingListCacheKey, FindUpcomingTrainings(rows, today), now);
        assert repository.Rows() == rows;
      } else {
        r := StoreInCache(TrainingListCacheKey, trainings.value, now);
      }
    }

    /** Serializes a list, stores it under `key` for the usual lifetime and
        returns what was stored. */
    method StoreInCache(key: string, trainings: seq<TrainingData>, now: Instant) returns (r: seq<Projection>)
      requires AllSerializable(trainings)
      modifies this
      ensures r == SerializedList(trainings)
      ensures pool == old(pool)[key := CacheEntry(r, now + CacheExpiration)]
      ensures queries == old(queries)
    {
      r := SerializeTrainings(trainings);
      pool := pool[key := CacheEntry(r, now + CacheExpiration)];
    }

    /** `isTrainingListCached`: whether the slot holds an unexpired entry. */
    method IsTrainingListCached(now: Instant) returns (b: bool)
      ensures b == Fresh(now)
    {
      b := Fresh(now);
    }

    /** `serializeTrainings`: one projection per training, same order. */
    method SerializeTrainings(trainings: seq<TrainingData>) returns (r: seq<Projection>)
      requires AllSerializable(trainings)
      ensures r == SerializedList(trainings)
    {
      r := [];
      var i := 0;
      while i < |trainings|
        invariant 0 <= i <= |trainings|
        invariant r == SerializedList(trainings[..i])
      {
        SerializedListPrefix(trainings, i);
        r := r + [SerializeTraining(trainings[i])];
        i := i + 1;
      }
      assert trainings[..i] == trainings;
    }
  }

  /** Two reads within the lifetime of the entry the first one stores: one
      query, and both return the same list. */
  method ReadTwiceWithinLifetime(cache: TrainingCacheService, today: CivilDate, now: Instant, later: Instant)
    returns (first: seq<Projection>, second: seq<Projection>)
    requires AllComplete(cache.repository.Rows()) && !cache.Fresh(now)
    requires now <= later < now + CacheExpiration
    modifies cache
    ensures first == second
    ensures first == UpcomingList(cache.repository.Rows(), today)
    ensures cache.queries == old(cache.queries) + 1
  {
    first := cache.GetUpcomingTrainings(today, now);
    ghost var rows := cache.repository.Rows();
    second := cache.GetUpcomingTrainings(today, later);
    assert cache.repository.Rows() == rows;
  }

  /** A refresh with a supplied list makes that list what the slot holds:
      the slot reports itself cached, and a read within the lifetime
      returns the same list without a query. */
  method RefreshThenRead(cache: TrainingCacheService, trainings: seq<TrainingData>, today: CivilDate,
                         now: Instant, later: Instant)
    returns (stored: seq<Projection>, cached: bool, read: seq<Projection>)
    requires AllComplete(cache.repository.Rows()) && AllSerializable(trainings)
    requires now <= later < now + CacheExpiration
    modifies cache
    ensures stored == SerializedList(trainings) && read == stored
    ensures cached
    ensures cache.queries == old(cache.queries)
  {
    stored := cache.RefreshTrainingCache(Some(trainings), today, now);
    cached := cache.IsTrainingListCached(later);
    read := cache.GetUpcomingTrainings(today, later);
  }
}
