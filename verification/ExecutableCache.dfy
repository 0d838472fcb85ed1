/** The in-memory executable cache: a least-recently-used list with an entry limit and a key-byte limit. */
module ExecutableCache {
  import opened Options
  import opened ByteStrings
  import opened Lists

  datatype Limits = Limits(maxEntries: nat, maxKeyBytes: nat)

  datatype Stats = Stats(hits: nat, misses: nat, diskHits: nat, readErrors: nat, writeErrors: nat, failures: nat, bypasses: nat,
                         evictions: nat, entries: nat, keyBytes: nat)

  /** What an attached disk cache would answer: nothing because there is none, a restored executable, no entry, or a
      failed read; in the last two cases also whether it would accept the new executable. */
  datatype DiskAnswer<E> = NoDisk | Restored(executable: E) | NotStored(accepts: bool) | Unreadable(accepts: bool)

  /** The executable a request gets when it is not in memory. */
  function FromOutside<E>(disk: DiskAnswer<E>, compiled: Option<E>): Option<E>
  {
    if disk.Restored? then Some(disk.executable) else compiled
  }

  /** A compiled executable that the disk would not take. */
  predicate Refused<E>(disk: DiskAnswer<E>, compiled: Option<E>)
  {
    compiled.Some? && (disk.NotStored? || disk.Unreadable?) && !disk.accepts
  }

  // ----- recency lists -----

  function TotalBytes(keys: seq<Bytes>): nat
  {
    if keys == [] then 0 else |keys[0]| + TotalBytes(keys[1..])
  }

  predicate Fits(keys: seq<Bytes>, limits: Limits)
  {
    |keys| <= limits.maxEntries && TotalBytes(keys) <= limits.maxKeyBytes
  }

  /** The longest suffix within both limits. */
  function Kept(keys: seq<Bytes>, limits: Limits): seq<Bytes>
  {
    if keys == [] || Fits(keys, limits) then keys else Kept(keys[1..], limits)
  }

  function Remove(keys: seq<Bytes>, key: Bytes): seq<Bytes>
  {
    if keys == [] then [] else if keys[0] == key then keys[1..] else [keys[0]] + Remove(keys[1..], key)
  }

  lemma {:induction false} TotalConcat(a: seq<Bytes>, b: seq<Bytes>)
    ensures TotalBytes(a + b) == TotalBytes(a) + TotalBytes(b)
  {
    if a == [] {
      assert a + b == b;
    } else {
      assert (a + b)[1..] == a[1..] + b;
      TotalConcat(a[1..], b);
    }
  }

  lemma TotalSnoc(a: seq<Bytes>, key: Bytes)
    ensures TotalBytes(a + [key]) == TotalBytes(a) + |key|
  {
    TotalConcat(a, [key]);
    assert TotalBytes([key]) == |key| + TotalBytes([key][1..]);
  }

  lemma {:induction false} RemoveIs(keys: seq<Bytes>, key: Bytes)
    requires Distinct(keys)
    ensures forall k :: k in Remove(keys, key) <==> k in keys && k != key
    ensures Distinct(Remove(keys, key))
    ensures TotalBytes(keys) == TotalBytes(Remove(keys, key)) + (if key in keys then |key| else 0)
    ensures |keys| == |Remove(keys, key)| + (if key in keys then 1 else 0)
  {
    if keys != [] {
      assert keys[0] !in keys[1..];
      RemoveIs(keys[1..], key);
    }
  }

  lemma {:induction false} RemoveAt(keys: seq<Bytes>, i: nat)
    requires Distinct(keys) && i < |keys|
    ensures Remove(keys, keys[i]) == keys[..i] + keys[i + 1..]
  {
    if i > 0 {
      RemoveAt(keys[1..], i - 1);
      assert keys[1..][i - 1] == keys[i];
      assert keys[..i] == [keys[0]] + keys[1..][..i - 1];
    }
  }

  lemma {:induction false} KeptFits(keys: seq<Bytes>, limits: Limits)
    ensures Fits(Kept(keys, limits), limits)
  {
    if keys != [] && !Fits(keys, limits) {
      KeptFits(keys[1..], limits);
    }
  }

  /** Front parts that cannot stay do not change what is kept. */
  lemma {:induction false} KeptSkip(p: seq<Bytes>, q: seq<Bytes>, limits: Limits)
    requires forall j :: 0 <= j < |p| ==> !Fits(p[j..] + q, limits)
    ensures Kept(p + q, limits) == Kept(q, limits)
  {
    if p == [] {
      assert p + q == q;
    } else {
      assert p[0..] + q == p + q;
      assert (p + q)[1..] == p[1..] + q;
      forall j | 0 <= j < |p[1..]| ensures !Fits(p[1..][j..] + q, limits) {
        assert p[1..][j..] == p[j + 1..];
      }
      KeptSkip(p[1..], q, limits);
    }
  }

  /** Everything dropped had to be dropped: no longer suffix fits. */
  lemma {:induction false} KeptIsLongest(keys: seq<Bytes>, limits: Limits) returns (d: nat)
    ensures d <= |keys| && Kept(keys, limits) == keys[d..]
    ensures forall j :: 0 <= j < d ==> !Fits(keys[j..], limits)
  {
    if keys == [] || Fits(keys, limits) {
      d := 0;
    } else {
      d := KeptIsLongest(keys[1..], limits);
      d := d + 1;
      forall j | 0 <= j < d ensures !Fits(keys[j..], limits) {
        if j > 0 {
          assert keys[1..][j - 1..] == keys[j..];
        } else {
          assert keys[0..] == keys;
        }
      }
    }
  }

  // ----- the cache -----

  predicate Retained(key: Bytes, limits: Limits)
  {
    limits.maxEntries > 0 && |key| <= limits.maxKeyBytes
  }

  /** The recency list after a successful lookup or compilation of key. */
  function Used(keys: seq<Bytes>, key: Bytes, limits: Limits): seq<Bytes>
  {
    if key in keys then Remove(keys, key) + [key]
    else if !Retained(key, limits) then keys
    else Kept(keys + [key], limits)
  }

  /** The recency list names every stored key exactly once. */
  ghost predicate Tracks<E>(entries: map<Bytes, E>, keys: seq<Bytes>)
  {
    Distinct(keys) && forall k :: k in keys <==> k in entries
  }

  lemma EvictOldest<E>(entries: map<Bytes, E>, keys: seq<Bytes>)
    requires Tracks(entries, keys) && keys != []
    ensures Tracks(entries - {keys[0]}, keys[1..]) && |keys[0]| + TotalBytes(keys[1..]) == TotalBytes(keys)
    ensures |entries - {keys[0]}| == |keys| - 1
  {
    assert keys[0] !in keys[1..];
    EntryCount(entries - {keys[0]}, keys[1..]);
  }

  lemma RemoveTracks<E>(entries: map<Bytes, E>, keys: seq<Bytes>, key: Bytes)
    requires Tracks(entries, keys)
    ensures Tracks(entries - {key}, Remove(keys, key))
    ensures |entries - {key}| == |Remove(keys, key)| <= |keys| && TotalBytes(Remove(keys, key)) <= TotalBytes(keys)
    ensures TotalBytes(keys) == TotalBytes(Remove(keys, key)) + (if key in entries then |key| else 0)
    ensures key !in entries ==> Remove(keys, key) == keys && entries - {key} == entries
  {
    hide TotalBytes, Remove;
    RemoveIs(keys, key);
    var rest, left := entries - {key}, Remove(keys, key);
    assert Tracks(rest, left);
    EntryCount(rest, left);
    if key !in entries {
      NothingToRemove(keys, key);
    }
  }

  /** No list starting before position d leaves room for the key. */
  ghost predicate NoRoomBefore(keys: seq<Bytes>, d: nat, key: Bytes, limits: Limits)
  {
    forall j :: 0 <= j < d && j <= |keys| ==> !Fits(keys[j..] + [key], limits)
  }

  lemma NoRoomStep(keys: seq<Bytes>, d: nat, key: Bytes, limits: Limits)
    requires NoRoomBefore(keys, d, key, limits) && d <= |keys| && !Fits(keys[d..] + [key], limits)
    ensures NoRoomBefore(keys, d + 1, key, limits)
  {
    hide Fits;
  }

  /** What remains after the evictions is what the limits keep. */
  lemma EvictedIsKept(keys: seq<Bytes>, d: nat, key: Bytes, limits: Limits)
    requires d <= |keys| && Fits(keys[d..] + [key], limits)
    requires NoRoomBefore(keys, d, key, limits)
    ensures Kept(keys + [key], limits) == keys[d..] + [key]
  {
    hide Fits;
    assert keys + [key] == keys[..d] + (keys[d..] + [key]);
    forall j | 0 <= j < d ensures !Fits(keys[..d][j..] + (keys[d..] + [key]), limits) {
      assert keys[..d][j..] + (keys[d..] + [key]) == keys[j..] + [key];
    }
    KeptSkip(keys[..d], keys[d..] + [key], limits);
  }

  /** Evict from the front until the key fits: exactly the shortest least-recent prefix that makes room. */
  method MakeRoom<E>(entries: map<Bytes, E>, keys: seq<Bytes>, bytes: nat, key: Bytes, limits: Limits)
    returns (left: map<Bytes, E>, kept: seq<Bytes>, size: nat)
    requires Tracks(entries, keys) && bytes == TotalBytes(keys) && key !in entries && Retained(key, limits)
    ensures Tracks(left, kept) && size == TotalBytes(kept) && key !in left && |kept| <= |keys|
    ensures kept + [key] == Kept(keys + [key], limits) && Fits(kept + [key], limits)
    ensures forall k :: k in left ==> k in entries && left[k] == entries[k]
  {
    hide Tracks, TotalBytes, NoRoomBefore;
    left, kept, size := entries, keys, bytes;
    ghost var d := 0;
    assert keys[0..] == keys;
    CountTracked(left, kept);
    NoRoomNone(keys, key, limits);
    while |left| >= limits.maxEntries || size > limits.maxKeyBytes - |key|
      invariant 0 <= d <= |keys| && kept == keys[d..]
      invariant Tracks(left, kept) && |left| == |kept| && key !in left && size == TotalBytes(kept)
      invariant NoRoomBefore(keys, d, key, limits)
      invariant forall k :: k in left ==> k in entries && left[k] == entries[k]
      decreases |kept|
    {
      TotalSnoc(kept, key);
      EmptyTotal();
      NoRoomStep(keys, d, key, limits);
      EvictOldest(left, kept);
      var oldest := kept[0];
      kept := kept[1..];
      left := left - {oldest};
      size := size - |oldest|;
      d := d + 1;
    }
    TotalSnoc(kept, key);
    EvictedIsKept(keys, d, key, limits);
  }

  lemma CountTracked<E>(entries: map<Bytes, E>, keys: seq<Bytes>)
    requires Tracks(entries, keys)
    ensures |entries| == |keys| && forall k :: k in keys <==> k in entries
  {
    EntryCount(entries, keys);
  }

  lemma EmptyTotal()
    ensures TotalBytes([]) == 0
  {
  }

  lemma NoRoomNone(keys: seq<Bytes>, key: Bytes, limits: Limits)
    ensures NoRoomBefore(keys, 0, key, limits)
  {
  }

  /** Moving a key to the back keeps the list's contents and sizes. */
  lemma TouchTracks<E>(entries: map<Bytes, E>, keys: seq<Bytes>, key: Bytes)
    requires Tracks(entries, keys) && key in entries
    ensures Tracks(entries, Remove(keys, key) + [key]) && |Remove(keys, key) + [key]| == |keys|
    ensures TotalBytes(Remove(keys, key) + [key]) == TotalBytes(keys)
  {
    RemoveIs(keys, key);
    TotalSnoc(Remove(keys, key), key);
  }

  lemma InsertTracks<E>(entries: map<Bytes, E>, keys: seq<Bytes>, key: Bytes, value: E)
    requires Tracks(entries, keys) && key !in entries
    ensures Tracks(entries[key := value], keys + [key]) && TotalBytes(keys + [key]) == TotalBytes(keys) + |key|
    ensures |entries[key := value]| == |keys + [key]|
  {
    TotalSnoc(keys, key);
    EntryCount(entries[key := value], keys + [key]);
  }

  /** The list without the element at a position. */
  function Without(keys: seq<Bytes>, position: nat): seq<Bytes>
    requires position < |keys|
  {
    keys[..position] + keys[position + 1..]
  }

  lemma WithoutIs<E>(entries: map<Bytes, E>, keys: seq<Bytes>, key: Bytes)
    requires Tracks(entries, keys) && key in entries
    ensures key in keys && Without(keys, Position(keys, key)) == Remove(keys, key)
  {
    RemoveAt(keys, Position(keys, key));
  }

  class Compiler<E(0)> {
    const limits: Limits
    var entries: map<Bytes, E>
    var recency: seq<Bytes>
    var stats: Stats

    /** Recency lists exactly the stored keys, once each, oldest first; the byte count is exact; both limits hold. */
    ghost predicate Valid()
      reads this
    {
      && Tracks(entries, recency)
      && stats.keyBytes == TotalBytes(recency) && stats.entries == |recency| && Fits(recency, limits)
    }

    constructor (limits: Limits)
      ensures Valid() && this.limits == limits && recency == [] && entries == map[]
    {
      this.limits := limits;
      entries, recency, stats := map[], [], Stats(0, 0, 0, 0, 0, 0, 0, 0, 0, 0);
    }

    /** Look a key up, or restore it from disk, or compile it and offer it to the disk. disk and compiled are what the
        disk and the backend would answer. */
    method CompileEncoded(key: Bytes, disk: DiskAnswer<E>, compiled: Option<E>) returns (result: Option<E>)
      requires Valid()
      modifies this
      ensures Valid()
      ensures result == if key in old(entries) then Some(old(entries)[key]) else FromOutside(disk, compiled)
      ensures recency == if result.None? then old(recency) else Used(old(recency), key, limits)
      ensures forall k :: k in entries && k !in old(entries) ==> k == key && result.Some?
      ensures forall k :: k in entries ==> entries[k] == if k in old(entries) then old(entries)[k] else result.value
      ensures stats.hits == old(stats.hits) + (if key in old(entries) then 1 else 0)
      ensures stats.misses == old(stats.misses) + (if key !in old(entries) && !disk.Restored? then 1 else 0)
      ensures stats.diskHits == old(stats.diskHits) + (if key !in old(entries) && disk.Restored? then 1 else 0)
      ensures stats.readErrors == old(stats.readErrors) + (if key !in old(entries) && disk.Unreadable? then 1 else 0)
      ensures stats.writeErrors == old(stats.writeErrors) + (if key !in old(entries) && Refused(disk, compiled) then 1 else 0)
      ensures stats.failures == old(stats.failures) + (if result.None? then 1 else 0)
      ensures stats.bypasses == old(stats.bypasses)
        + (if key !in old(entries) && result.Some? && !Retained(key, limits) then 1 else 0)
      ensures stats.evictions == old(stats.evictions)
        + (if key in old(entries) || result.None? || !Retained(key, limits) then 0 else |old(recency)| + 1 - |recency|)
    {
      hide Tracks, TotalBytes, Remove, Kept, Position, Without;
      CountTracked(entries, recency);
      if key in entries {
        WithoutIs(entries, recency, key);
        TouchTracks(entries, recency, key);
        result := Some(entries[key]);
        recency := Without(recency, Position(recency, key)) + [key];
        stats := stats.(hits := stats.hits + 1);
        return;
      }
      result := Obtain(disk, compiled);
      if result.Some? {
        Retain(key, result.value);
      }
    }

    /** Ask the disk, then the backend, and offer the disk what the backend made. */
    method Obtain(disk: DiskAnswer<E>, compiled: Option<E>) returns (result: Option<E>)
      modifies this`stats
      ensures result == FromOutside(disk, compiled)
      ensures stats == old(stats).(
        diskHits := old(stats.diskHits) + (if disk.Restored? then 1 else 0),
        readErrors := old(stats.readErrors) + (if disk.Unreadable? then 1 else 0),
        misses := old(stats.misses) + (if disk.Restored? then 0 else 1),
        failures := old(stats.failures) + (if result.None? then 1 else 0),
        writeErrors := old(stats.writeErrors) + (if Refused(disk, compiled) then 1 else 0))
    {
      if disk.Restored? {
        stats := stats.(diskHits := stats.diskHits + 1);
        return Some(disk.executable);
      }
      if disk.Unreadable? {
        stats := stats.(readErrors := stats.readErrors + 1);
      }
      stats := stats.(misses := stats.misses + 1);
      if compiled.None? {
        stats := stats.(failures := stats.failures + 1);
        return None;
      }
      if (disk.NotStored? || disk.Unreadable?) && !disk.accepts {
        stats := stats.(writeErrors := stats.writeErrors + 1);
      }
      return compiled;
    }

    /** Keep a new executable in memory, unless its key can never fit. */
    method Retain(key: Bytes, value: E)
      requires Valid() && key !in entries
      modifies this
      ensures Valid() && recency == Used(old(recency), key, limits)
      ensures forall k :: k in entries && k !in old(entries) ==> k == key
      ensures forall k :: k in entries ==> entries[k] == if k in old(entries) then old(entries)[k] else value
      ensures stats.evictions == old(stats.evictions) + (if Retained(key, limits) then |old(recency)| + 1 - |recency| else 0)
      ensures stats == old(stats).(
        bypasses := old(stats.bypasses) + (if Retained(key, limits) then 0 else 1),
        evictions := stats.evictions,
        entries := |recency|, keyBytes := TotalBytes(recency))
    {
      hide Tracks, TotalBytes, Remove, Kept, Position, Without;
      CountTracked(entries, recency);
      NothingToRemove(recency, key);
      if limits.maxEntries == 0 || |key| > limits.maxKeyBytes {
        stats := stats.(bypasses := stats.bypasses + 1);
        return;
      }
      var left, kept, size := MakeRoom(entries, recency, stats.keyBytes, key, limits);
      InsertTracks(left, kept, key, value);
      stats := stats.(evictions := stats.evictions + (|recency| - |kept|), keyBytes := size + |key|);
      recency := kept + [key];
      entries := left[key := value];
      stats := stats.(entries := |entries|);
    }

    /** Forget one program. */
    method InvalidateMemory(key: Bytes) returns (found: bool)
      requires Valid()
      modifies this
      ensures Valid() && found == (key in old(entries))
      ensures recency == Remove(old(recency), key) && entries == old(entries) - {key}
      ensures stats == old(stats).(entries := |recency|, keyBytes := TotalBytes(recency))
    {
      hide Tracks, TotalBytes, Remove, Position, Without;
      CountTracked(entries, recency);
      RemoveTracks(entries, recency, key);
      if key !in entries {
        return false;
      }
      WithoutIs(entries, recency, key);
      var size := stats.keyBytes - |key|;
      entries, recency := entries - {key}, Without(recency, Position(recency, key));
      stats := stats.(keyBytes := size, entries := |entries|);
      return true;
    }

    method Clear()
      requires Valid()
      modifies this
      ensures Valid() && recency == [] && entries == map[]
      ensures stats == old(stats).(entries := 0, keyBytes := 0)
    {
      entries, recency := map[], [];
      stats := stats.(entries := 0, keyBytes := 0);
    }
  }

  function Position(keys: seq<Bytes>, key: Bytes): (i: nat)
    requires key in keys
    ensures i < |keys| && keys[i] == key
  {
    if keys[0] == key then 0 else 1 + Position(keys[1..], key)
  }

  lemma {:induction false} NothingToRemove(keys: seq<Bytes>, key: Bytes)
    requires key !in keys
    ensures Remove(keys, key) == keys
  {
    if keys != [] {
      NothingToRemove(keys[1..], key);
    }
  }

  lemma {:induction false} EntryCount<E>(entries: map<Bytes, E>, keys: seq<Bytes>)
    requires Distinct(keys) && forall k :: k in keys <==> k in entries
    ensures |entries| == |keys|
  {
    if keys == [] {
      assert entries == map[];
    } else {
      assert keys[0] !in keys[1..];
      EntryCount(entries - {keys[0]}, keys[1..]);
    }
  }

  // ----- what a whole run retains -----

  /** A compile request, with whether the disk or the backend could deliver; an invalidation; or a clear. */
  datatype Event = Requested(key: Bytes, available: bool) | Forgotten(key: Bytes) | Cleared

  /** The naive least-recently-used list after a run. */
  function RecencyAfter(events: seq<Event>, limits: Limits): seq<Bytes>
  {
    if events == [] then [] else
      var before := RecencyAfter(events[..|events| - 1], limits);
      match events[|events| - 1]
      case Cleared => []
      case Forgotten(key) => Remove(before, key)
      case Requested(key, available) => if key in before || available then Used(before, key, limits) else before
  }

  /** Every retainable key used since the last clear, ordered by last use. */
  function LastUses(events: seq<Event>, limits: Limits): seq<Bytes>
  {
    if events == [] then [] else
      var order := LastUses(events[..|events| - 1], limits);
      match events[|events| - 1]
      case Cleared => []
      case Forgotten(key) => Remove(order, key)
      case Requested(key, available) =>
        if (key in RecencyAfter(events[..|events| - 1], limits) || available) && Retained(key, limits) then
          Remove(order, key) + [key]
        else order
  }

  lemma FitsSwap(a: seq<Bytes>, b: seq<Bytes>, c: seq<Bytes>, limits: Limits)
    requires |b| == |c| && TotalBytes(b) == TotalBytes(c)
    ensures Fits(a + b, limits) == Fits(a + c, limits)
  {
    TotalConcat(a, b);
    TotalConcat(a, c);
  }

  lemma {:induction false} RemoveConcat(p: seq<Bytes>, q: seq<Bytes>, key: Bytes)
    ensures key !in p ==> Remove(p + q, key) == p + Remove(q, key)
    ensures key in p ==> Remove(p + q, key) == Remove(p, key) + q
  {
    if p == [] {
      assert p + q == q;
    } else {
      assert (p + q)[1..] == p[1..] + q;
      if p[0] != key {
        RemoveConcat(p[1..], q, key);
        assert [p[0]] + (p[1..] + Remove(q, key)) == p + Remove(q, key);
      }
    }
  }

  /** Behind the same front, another list of the same size is kept whole as well. */
  lemma SwapKept(p: seq<Bytes>, q: seq<Bytes>, r: seq<Bytes>, limits: Limits)
    requires Fits(q, limits) && |q| == |r| && TotalBytes(q) == TotalBytes(r)
    requires forall j :: 0 <= j < |p| ==> !Fits(p[j..] + q, limits)
    ensures Kept(p + r, limits) == r
  {
    hide Fits, TotalBytes;
    forall j | 0 <= j < |p| ensures !Fits(p[j..] + r, limits) {
      FitsSwap(p[j..], q, r, limits);
    }
    KeptSkip(p, r, limits);
    FitsSwap([], q, r, limits);
    assert [] + q == q && [] + r == r;
  }

  /** The kept part of a list, and the front that had to go. */
  lemma KeptParts(order: seq<Bytes>, limits: Limits) returns (p: seq<Bytes>, q: seq<Bytes>)
    ensures order == p + q && q == Kept(order, limits) && Fits(q, limits)
    ensures forall j :: 0 <= j < |p| ==> !Fits(p[j..] + q, limits)
  {
    hide Fits, Kept;
    var d := KeptIsLongest(order, limits);
    KeptFits(order, limits);
    p, q := order[..d], order[d..];
    forall j | 0 <= j < |p| ensures !Fits(p[j..] + q, limits) {
      assert p[j..] + q == order[j..];
    }
  }

  /** Using a kept key reorders what is kept and keeps the rest out. */
  lemma HitKept(order: seq<Bytes>, key: Bytes, limits: Limits)
    requires Distinct(order) && key in Kept(order, limits)
    ensures Kept(Remove(order, key) + [key], limits) == Remove(Kept(order, limits), key) + [key]
  {
    hide *;
    var p, q := KeptParts(order, limits);
    DistinctHalves(p, q);
    RemoveConcat(p, q, key);
    RemoveIs(q, key);
    var r := Remove(q, key) + [key];
    TotalSnoc(Remove(q, key), key);
    assert p + Remove(q, key) + [key] == p + r;
    SwapKept(p, q, r, limits);
  }

  lemma DistinctHalves(p: seq<Bytes>, q: seq<Bytes>)
    requires Distinct(p + q)
    ensures Distinct(p) && Distinct(q) && forall k :: k in q ==> k !in p
  {
    var u := p + q;
    assert forall i :: 0 <= i < |p| ==> u[i] == p[i];
    assert forall i :: 0 <= i < |q| ==> u[|p| + i] == q[i];
  }

  /** Adding a new key keeps the longest suffix that leaves room for it, wherever the key was last seen. */
  lemma MissKept(order: seq<Bytes>, key: Bytes, limits: Limits)
    requires Distinct(order) && key !in Kept(order, limits)
    ensures Kept(Remove(order, key) + [key], limits) == Kept(Kept(order, limits) + [key], limits)
  {
    hide *;
    var p, q := KeptParts(order, limits);
    RemoveConcat(p, q, key);
    NothingToRemove(q, key);
    var rest := Remove(p, key);
    if key !in p {
      NothingToRemove(p, key);
    }
    assert Remove(order, key) + [key] == rest + (q + [key]);
    forall j | 0 <= j < |rest| ensures !Fits(rest[j..] + (q + [key]), limits) {
      NoRoomAhead(p, q, key, j, limits);
    }
    KeptSkip(rest, q + [key], limits);
  }

  /** A dropped key cannot come back together with the new one. */
  lemma NoRoomAhead(p: seq<Bytes>, q: seq<Bytes>, key: Bytes, j: nat, limits: Limits)
    requires forall i :: 0 <= i < |p| ==> !Fits(p[i..] + q, limits)
    requires j < |Remove(p, key)|
    ensures !Fits(Remove(p, key)[j..] + (q + [key]), limits)
  {
    hide Fits, TotalBytes, Remove;
    RemoveNone(key);
    var d := |p| - 1;
    var last, tail := p[d], Remove(p, key)[j..];
    assert p[d..] == [last];
    // the last dropped key and q are over the limits; the tail, q and the new key are no smaller
    TotalConcat(tail, q + [key]);
    TotalConcat(q, [key]);
    TotalConcat([last], q);
    if last != key {
      LastSurvives(p, key);
      assert tail == tail[..|tail| - 1] + [last];
      TotalConcat(tail[..|tail| - 1], [last]);
    }
    Bigger([last] + q, tail + (q + [key]), limits);
  }

  lemma RemoveNone(key: Bytes)
    ensures Remove([], key) == []
  {
  }

  lemma Bigger(small: seq<Bytes>, big: seq<Bytes>, limits: Limits)
    requires |small| <= |big| && TotalBytes(small) <= TotalBytes(big) && !Fits(small, limits)
    ensures !Fits(big, limits)
  {
    hide TotalBytes;
  }

  lemma {:induction false} LastSurvives(p: seq<Bytes>, key: Bytes)
    requires p != [] && p[|p| - 1] != key
    ensures Remove(p, key) != [] && Remove(p, key)[|Remove(p, key)| - 1] == p[|p| - 1]
  {
    if p[0] != key && |p| > 1 {
      LastSurvives(p[1..], key);
    }
  }

  /** After any run of requests and clears the cache holds exactly the longest run of most recently used keys that
      fits both limits. */
  lemma {:induction false} RetainsMostRecent(events: seq<Event>, limits: Limits)
    requires forall i :: 0 <= i < |events| ==> !events[i].Forgotten?
    ensures Distinct(LastUses(events, limits))
    ensures RecencyAfter(events, limits) == Kept(LastUses(events, limits), limits)
  {
    if events != [] {
      var init, event := events[..|events| - 1], events[|events| - 1];
      RetainsMostRecent(init, limits);
      var order, keys := LastUses(init, limits), RecencyAfter(init, limits);
      if event.Requested? {
        RemoveIs(order, event.key);
        KeptFits(order, limits);
        if event.key in keys {
          KeyInKept(order, event.key, limits);
          HitKept(order, event.key, limits);
        } else if event.available && Retained(event.key, limits) {
          MissKept(order, event.key, limits);
        }
      }
    }
  }

  /** A kept key is small enough to be retained. */
  lemma KeyInKept(order: seq<Bytes>, key: Bytes, limits: Limits)
    requires key in Kept(order, limits)
    ensures Retained(key, limits)
  {
    KeptFits(order, limits);
    var keys := Kept(order, limits);
    var i: nat :| i < |keys| && keys[i] == key;
    assert keys == keys[..i] + ([key] + keys[i + 1..]);
    TotalConcat(keys[..i], [key] + keys[i + 1..]);
    TotalConcat([key], keys[i + 1..]);
  }

  // ----- whole runs of the cache -----

  /** A compile request with the answers the disk and the backend would give, an invalidation, or a clear. */
  datatype Step<E> = Compile(key: Bytes, disk: DiskAnswer<E>, compiled: Option<E>) | Invalidate(key: Bytes) | ClearAll
  {
    function Delivered(): Option<E>
    {
      if Compile? then FromOutside(disk, compiled) else None
    }

    function ToEvent(): Event
    {
      match this
      case Compile(key, _, _) => Requested(key, Delivered().Some?)
      case Invalidate(key) => Forgotten(key)
      case ClearAll => Cleared
    }
  }

  function EventsOf<E>(steps: seq<Step<E>>): (r: seq<Event>)
    ensures |r| == |steps|
  {
    seq(|steps|, (i: nat) requires i < |steps| => steps[i].ToEvent())
  }

  /** Step j was a compile request for the key that delivered the executable. */
  predicate Delivers<E(==)>(steps: seq<Step<E>>, j: nat, key: Bytes, value: E)
    requires j < |steps|
  {
    steps[j].Compile? && steps[j].key == key && steps[j].Delivered() == Some(value)
  }

  /** An executable returned by step i was delivered for exactly its key, by this step or an earlier one. */
  ghost predicate Answered<E>(steps: seq<Step<E>>, i: nat, result: Option<E>)
    requires i < |steps|
  {
    result.Some? ==> steps[i].Compile? && exists j :: 0 <= j <= i && Delivers(steps, j, steps[i].key, result.value)
  }

  /** Every stored executable was delivered for its own key by one of the first n steps. */
  ghost predicate Sourced<E>(steps: seq<Step<E>>, n: nat, entries: map<Bytes, E>)
    requires n <= |steps|
  {
    forall k :: k in entries ==> exists j :: 0 <= j < n && Delivers(steps, j, k, entries[k])
  }

  lemma StillSourced<E>(steps: seq<Step<E>>, n: nat, before: map<Bytes, E>, after: map<Bytes, E>, result: Option<E>)
    requires n < |steps| && Sourced(steps, n, before) && steps[n].Compile?
    requires result == if steps[n].key in before then Some(before[steps[n].key]) else steps[n].Delivered()
    requires forall k :: k in after && k !in before ==> k == steps[n].key && result.Some?
    requires forall k :: k in after ==> after[k] == if k in before then before[k] else result.value
    ensures Sourced(steps, n + 1, after) && Answered(steps, n, result)
  {
    hide Delivers;
    if steps[n].key !in before && result.Some? {
      DeliversSelf(steps, n);
    }
    forall k | k in after ensures exists j :: 0 <= j < n + 1 && Delivers(steps, j, k, after[k]) {
      if k in before {
        var j :| 0 <= j < n && Delivers(steps, j, k, before[k]);
        assert Delivers(steps, j, k, after[k]);
      } else {
        assert Delivers(steps, n, k, after[k]);
      }
    }
    if result.Some? && steps[n].key in before {
      var j :| 0 <= j < n && Delivers(steps, j, steps[n].key, before[steps[n].key]);
      assert Delivers(steps, j, steps[n].key, result.value);
    }
  }

  lemma DeliversSelf<E>(steps: seq<Step<E>>, n: nat)
    requires n < |steps| && steps[n].Compile? && steps[n].Delivered().Some?
    ensures Delivers(steps, n, steps[n].key, steps[n].Delivered().value)
  {
  }

  lemma SourcedSubset<E>(steps: seq<Step<E>>, n: nat, before: map<Bytes, E>, after: map<Bytes, E>)
    requires n < |steps| && Sourced(steps, n, before) && forall k :: k in after ==> k in before && after[k] == before[k]
    ensures Sourced(steps, n + 1, after)
  {
    hide Delivers;
    forall k | k in after ensures exists j :: 0 <= j < n + 1 && Delivers(steps, j, k, after[k]) {
      var j :| 0 <= j < n && Delivers(steps, j, k, before[k]);
    }
  }

  lemma RecencyStep<E>(steps: seq<Step<E>>, n: nat, limits: Limits)
    requires n < |steps|
    ensures var before := RecencyAfter(EventsOf(steps[..n]), limits);
      RecencyAfter(EventsOf(steps[..n + 1]), limits) == match steps[n].ToEvent()
        case Cleared => []
        case Forgotten(key) => Remove(before, key)
        case Requested(key, available) => if key in before || available then Used(before, key, limits) else before
  {
    var all := EventsOf(steps[..n + 1]);
    assert all[..|all| - 1] == EventsOf(steps[..n]);
  }

  lemma NothingYet<E>(steps: seq<Step<E>>, limits: Limits)
    ensures RecencyAfter(EventsOf(steps[..0]), limits) == [] && Sourced(steps, 0, map[])
  {
  }

  /** Any run from an empty cache: every executable was made for its own key, and the keys held are the naive
      least-recently-used list's. */
  method Replay<E(0)>(limits: Limits, steps: seq<Step<E>>) returns (results: seq<Option<E>>, kept: seq<Bytes>)
    ensures |results| == |steps|
    ensures forall i :: 0 <= i < |steps| ==> Answered(steps, i, results[i])
    ensures kept == RecencyAfter(EventsOf(steps), limits)
  {
    hide Used, Sourced, Answered, Kept, RecencyAfter, EventsOf, Tracks, TotalBytes, Fits, Retained, Remove;
    var cache := new Compiler<E>(limits);
    results := [];
    NothingYet(steps, limits);
    for n := 0 to |steps|
      invariant |results| == n && cache.Valid() && fresh(cache) && cache.limits == limits
      invariant cache.recency == RecencyAfter(EventsOf(steps[..n]), limits)
      invariant Sourced(steps, n, cache.entries)
      invariant forall i :: 0 <= i < n ==> Answered(steps, i, results[i])
    {
      ghost var before := cache.entries;
      CountTracked(cache.entries, cache.recency);
      RecencyStep(steps, n, limits);
      var result := None;
      match steps[n] {
        case Compile(key, disk, compiled) =>
          result := cache.CompileEncoded(key, disk, compiled);
          StillSourced(steps, n, before, cache.entries, result);
        case Invalidate(key) =>
          var found := cache.InvalidateMemory(key);
          SourcedSubset(steps, n, before, cache.entries);
          NoAnswer(steps, n);
        case ClearAll =>
          cache.Clear();
          SourcedSubset(steps, n, before, cache.entries);
          NoAnswer(steps, n);
      }
      results := results + [result];
    }
    assert steps[..|steps|] == steps;
    kept := cache.recency;
  }

  lemma NoAnswer<E>(steps: seq<Step<E>>, n: nat)
    requires n < |steps|
    ensures Answered(steps, n, None)
  {
  }

  // ----- keys -----

  function ProgramTag(): Bytes
  {
    Ascii("rxla-program") + [0]
  }

  function OptionsTag(): Bytes
  {
    Ascii("rxla-options") + [0]
  }

  /** The key of a program under the compiler's own options. */
  function ProgramKey(code: Bytes): Bytes
  {
    ProgramTag() + Ascii("mlir") + [0] + code
  }

  /** The key of a program with explicit compile options. */
  function OptionsKey(code: Bytes, options: Bytes): Bytes
  {
    OptionsTag() + LengthField(ProgramKey(code)) + ProgramKey(code) + options
  }

  function MemoryKey(code: Bytes, options: Option<Bytes>): Bytes
  {
    match options
    case None => ProgramKey(code)
    case Some(o) => OptionsKey(code, o)
  }

  lemma TagsDiffer(x: Bytes, y: Bytes)
    ensures ProgramTag() + x != OptionsTag() + y
  {
    assert (ProgramTag() + x)[5] == 'p' as int && (OptionsTag() + y)[5] == 'o' as int;
  }

  lemma ProgramKeyInjective(c: Bytes, d: Bytes)
    requires ProgramKey(c) == ProgramKey(d)
    ensures c == d
  {
    hide Ascii;
    PrefixCancel(ProgramTag() + Ascii("mlir") + [0], c, d);
  }

  /** Different programs or different options never share a key, and plain keys never equal option keys. */
  lemma MemoryKeyInjective(c: Bytes, o: Option<Bytes>, d: Bytes, p: Option<Bytes>)
    requires Addressable(ProgramKey(c)) && Addressable(ProgramKey(d)) && MemoryKey(c, o) == MemoryKey(d, p)
    ensures c == d && o == p
  {
    hide Addressable, LengthField;
    match (o, p)
    case (None, None) => ProgramKeyInjective(c, d);
    case (Some(x), Some(y)) =>
      OptionsKeySplit(c, x);
      OptionsKeySplit(d, y);
      PrefixCancel(OptionsTag(), LengthField(ProgramKey(c)) + ProgramKey(c) + x, LengthField(ProgramKey(d)) + ProgramKey(d) + y);
      FramedInjective(ProgramKey(c), ProgramKey(d), x, y);
      ProgramKeyInjective(c, d);
    case (None, Some(y)) => KindsDiffer(c, d, y);
    case (Some(x), None) => KindsDiffer(d, c, x);
  }

  lemma OptionsKeySplit(c: Bytes, x: Bytes)
    ensures OptionsKey(c, x) == OptionsTag() + (LengthField(ProgramKey(c)) + ProgramKey(c) + x)
  {
    hide ProgramKey, LengthField, OptionsTag;
  }

  lemma KindsDiffer(c: Bytes, d: Bytes, y: Bytes)
    ensures ProgramKey(c) != OptionsKey(d, y)
  {
    OptionsKeySplit(d, y);
    assert ProgramKey(c) == ProgramTag() + (Ascii("mlir") + [0] + c);
    TagsDiffer(Ascii("mlir") + [0] + c, LengthField(ProgramKey(d)) + ProgramKey(d) + y);
  }
}
