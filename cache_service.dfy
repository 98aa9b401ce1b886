/** The comparison cache: a map from comparison id to the two cached
    workbook views, each entry living for thirty minutes. Expiry is lazy on
    `get` and eager on `set`, which sweeps every expired entry. The clock is
    a parameter (milliseconds); `set` reads it twice, once to stamp the new
    entry and once more in its sweep, so it takes two readings. The pure
    functions below describe each operation's effect on the map; the class
    performs the operations in place and is proved against them. */
module Cache {
  import opened Types

  /** Thirty minutes in milliseconds. */
  const TTL: int := 30 * 60 * 1000

  datatype CachedComparison = CachedComparison(
    file1Data: WorkbookData,
    file2Data: WorkbookData,
    timestamp: int,
    expiresAt: int)

  type Entries = map<string, CachedComparison>

  /** Expiry is strict: an entry is still live at its `expiresAt` instant. */
  predicate Expired(entry: CachedComparison, now: int)
  {
    now > entry.expiresAt
  }

  /** The entry `set` stores at time `now`. */
  function NewEntry(file1Data: WorkbookData, file2Data: WorkbookData, now: int): CachedComparison
  {
    CachedComparison(file1Data, file2Data, now, now + TTL)
  }

  /** The map after the sweep at `now`. */
  function Sweep(m: Entries, now: int): (m': Entries)
    ensures forall id :: id in m' <==> id in m && !Expired(m[id], now)
    ensures forall id :: id in m' ==> m'[id] == m[id]
  {
    map id | id in m && !Expired(m[id], now) :: m[id]
  }

  /** The map after `set(id, d1, d2)`: store the entry stamped `now`, then
      sweep at `sweepNow`. */
  function AfterSet(m: Entries, id: string, file1Data: WorkbookData, file2Data: WorkbookData, now: int, sweepNow: int): Entries
  {
    Sweep(m[id := NewEntry(file1Data, file2Data, now)], sweepNow)
  }

  /** What `get(id)` at `now` answers. */
  function GetResult(m: Entries, id: string, now: int): Option<CachedComparison>
  {
    if id in m && !Expired(m[id], now) then Some(m[id]) else None
  }

  /** The map after `get(id)` at `now`: an expired entry is deleted. */
  function AfterGet(m: Entries, id: string, now: int): Entries
  {
    if id in m && Expired(m[id], now) then m - {id} else m
  }

  /** Every entry expires TTL after it was stored. */
  predicate EntriesValid(m: Entries)
  {
    forall id :: id in m ==> m[id].expiresAt == m[id].timestamp + TTL
  }

  class CacheService {
    var entries: Entries

    ghost predicate Valid()
      reads this
    {
      EntriesValid(entries)
    }

    constructor ()
      ensures Valid() && entries == map[]
    {
      entries := map[];
    }

    method Set(comparisonId: string, file1Data: WorkbookData, file2Data: WorkbookData, now: int, sweepNow: int)
      requires Valid()
      modifies this
      ensures Valid()
      ensures entries == AfterSet(old(entries), comparisonId, file1Data, file2Data, now, sweepNow)
    {
      entries := entries[comparisonId := CachedComparison(file1Data, file2Data, now, now + TTL)];
      Cleanup(sweepNow);
    }

    method Get(comparisonId: string, now: int) returns (cached: Option<CachedComparison>)
      requires Valid()
      modifies this
      ensures Valid()
      ensures cached == GetResult(old(entries), comparisonId, now)
      ensures entries == AfterGet(old(entries), comparisonId, now)
    {
      if comparisonId !in entries {
        return None;
      }
      var entry := entries[comparisonId];
      if now > entry.expiresAt {
        entries := entries - {comparisonId};
        return None;
      }
      return Some(entry);
    }

    /** Visits every entry once, in no particular order, deleting expired ones. */
    method Cleanup(now: int)
      requires Valid()
      modifies this
      ensures Valid()
      ensures entries == Sweep(old(entries), now)
    {
      var pending := entries.Keys;
      while pending != {}
        invariant pending <= old(entries).Keys
        invariant forall id :: id in entries <==> id in old(entries) && (id in pending || !Expired(old(entries)[id], now))
        invariant forall id :: id in entries ==> entries[id] == old(entries)[id]
        decreases pending
      {
        var id :| id in pending;
        if now > entries[id].expiresAt {
          entries := entries - {id};
        }
        pending := pending - {id};
      }
      assert entries == Sweep(old(entries), now);
    }

    method Clear(comparisonId: string)
      requires Valid()
      modifies this
      ensures Valid()
      ensures entries == old(entries) - {comparisonId}
    {
      entries := entries - {comparisonId};
    }

    method ClearAll()
      modifies this
      ensures Valid()
      ensures entries == map[]
    {
      entries := map[];
    }
  }

  // ---------------------------------------------------------------------
  // Properties of the cache operations

  /** `set` stores the new entry under its id, replacing any earlier one;
      unless the clock has moved past the entry's expiry before the sweep,
      the entry survives its own sweep. */
  lemma SetStores(m: Entries, id: string, file1Data: WorkbookData, file2Data: WorkbookData, now: int, sweepNow: int)
    ensures id in AfterSet(m, id, file1Data, file2Data, now, sweepNow) <==> sweepNow <= now + 1800000
    ensures id in AfterSet(m, id, file1Data, file2Data, now, sweepNow) ==>
      AfterSet(m, id, file1Data, file2Data, now, sweepNow)[id] == CachedComparison(file1Data, file2Data, now, now + 1800000)
  {
  }

  /** After `set` stamped at `now`, `get` of that id at any instant up to and
      including `now + TTL` answers exactly the stored workbooks. */
  lemma SetThenGet(m: Entries, id: string, file1Data: WorkbookData, file2Data: WorkbookData, now: int, sweepNow: int, t: int)
    requires sweepNow <= now + TTL && t <= now + TTL
    ensures var r := GetResult(AfterSet(m, id, file1Data, file2Data, now, sweepNow), id, t);
      r.Some? && r.value.file1Data == file1Data && r.value.file2Data == file2Data
  {
  }

  /** `get` of an absent id answers null and changes nothing. */
  lemma GetAbsent(m: Entries, id: string, now: int)
    requires id !in m
    ensures GetResult(m, id, now) == None && AfterGet(m, id, now) == m
  {
  }

  /** Past its `expiresAt`, `get` deletes the entry and answers null; at
      exactly `expiresAt` the entry is still answered and kept. */
  lemma GetExpiry(m: Entries, id: string, now: int)
    requires id in m
    ensures now > m[id].expiresAt ==> GetResult(m, id, now) == None && AfterGet(m, id, now) == m - {id}
    ensures now <= m[id].expiresAt ==> GetResult(m, id, now) == Some(m[id]) && AfterGet(m, id, now) == m
  {
  }

  /** For entries stamped by `set`, a `get` at `t` answers the entry exactly
      while `t` is at most TTL after the entry's own stamp. */
  lemma GetLive(m: Entries, id: string, t: int)
    requires EntriesValid(m)
    ensures GetResult(m, id, t).Some? <==> id in m && t <= m[id].timestamp + TTL
    ensures GetResult(m, id, t).Some? ==> GetResult(m, id, t).value == m[id]
  {
  }

  /** The sweep in `set` keeps every other live entry untouched and drops
      every other expired one. */
  lemma SetSweepsOthers(m: Entries, id: string, file1Data: WorkbookData, file2Data: WorkbookData, now: int, sweepNow: int, other: string)
    requires other != id && other in m
    ensures other in AfterSet(m, id, file1Data, file2Data, now, sweepNow) <==> sweepNow <= m[other].expiresAt
    ensures other in AfterSet(m, id, file1Data, file2Data, now, sweepNow) ==>
      AfterSet(m, id, file1Data, file2Data, now, sweepNow)[other] == m[other]
  {
  }

  /** A run of cache calls, each with its own clock reading. */
  datatype Call =
    | SetCall(id: string, file1Data: WorkbookData, file2Data: WorkbookData, now: int, sweepNow: int)
    | GetCall(id: string, now: int)
    | ClearCall(id: string)
    | ClearAllCall

  function Step(m: Entries, call: Call): Entries
  {
    match call
    case SetCall(id, d1, d2, now, sweepNow) => AfterSet(m, id, d1, d2, now, sweepNow)
    case GetCall(id, now) => AfterGet(m, id, now)
    case ClearCall(id) => m - {id}
    case ClearAllCall => map[]
  }

  function Run(m: Entries, calls: seq<Call>): Entries
    decreases |calls|
  {
    if calls == [] then m else Run(Step(m, calls[0]), calls[1..])
  }

  predicate SetsId(call: Call, id: string)
  {
    call.SetCall? && call.id == id
  }

  /** No removed entry comes back: once an id is absent, no run of calls
      that does not `set` that very id brings it back, so `get` keeps
      answering null. */
  lemma {:induction false} NoResurrection(m: Entries, calls: seq<Call>, id: string)
    requires id !in m
    requires forall k :: 0 <= k < |calls| ==> !SetsId(calls[k], id)
    ensures id !in Run(m, calls)
    ensures forall now :: GetResult(Run(m, calls), id, now) == None
    decreases |calls|
  {
    if calls != [] {
      assert !SetsId(calls[0], id);
      NoResurrection(Step(m, calls[0]), calls[1..], id);
    }
  }

  /** An entry expired once stays unreachable: after a `get` past its expiry,
      no later run without a `set` of the same id can answer it again. */
  lemma {:induction false} ExpiredStaysGone(m: Entries, id: string, now: int, calls: seq<Call>)
    requires id in m && now > m[id].expiresAt
    requires forall k :: 0 <= k < |calls| ==> !SetsId(calls[k], id)
    ensures forall t :: GetResult(Run(AfterGet(m, id, now), calls), id, t) == None
  {
    NoResurrection(AfterGet(m, id, now), calls, id);
  }

  /** Every call keeps the TTL invariant of the stored entries. */
  lemma {:induction false} RunKeepsValid(m: Entries, calls: seq<Call>)
    requires EntriesValid(m)
    ensures EntriesValid(Run(m, calls))
    decreases |calls|
  {
    if calls != [] {
      var m' := Step(m, calls[0]);
      assert EntriesValid(m');
      RunKeepsValid(m', calls[1..]);
    }
  }

  /** Entries are immutable once stored: an entry still present after a run
      without a `set` of its id is the one that was there before. */
  lemma {:induction false} EntriesImmutable(m: Entries, calls: seq<Call>, id: string)
    requires forall k :: 0 <= k < |calls| ==> !SetsId(calls[k], id)
    ensures id in Run(m, calls) ==> id in m && Run(m, calls)[id] == m[id]
    decreases |calls|
  {
    if calls != [] {
      assert !SetsId(calls[0], id);
      EntriesImmutable(Step(m, calls[0]), calls[1..], id);
    }
  }
}
