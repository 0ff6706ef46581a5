/**
 * The byte-bounded cache (apps/api/src/http/lru.ts). Its insertion-ordered map holds the least
 * recently used entry first. Times and lifetimes are real milliseconds.
 */
module ByteLru {
  import opened InsertionMap
  import opened Options

  datatype Lifetimes = Lifetimes(freshMs: real, staleMs: real, errorMs: real)
  datatype Entry<V> = Entry(value: V, bytes: nat, freshUntil: real, staleUntil: real, errorUntil: real)
  datatype CacheState = Fresh | Stale | ErrorOnly
  datatype Hit<V> = Hit(value: V, state: CacheState)

  function NewEntry<V>(key: string, value: V, bytes: nat, lifetimes: Lifetimes, time: real): Slot<string, Entry<V>> {
    var freshUntil := time + lifetimes.freshMs;
    var staleUntil := freshUntil + lifetimes.staleMs;
    Slot(key, Entry(value, bytes, freshUntil, staleUntil, staleUntil + lifetimes.errorMs))
  }

  function Bytes<V>(entries: seq<Slot<string, Entry<V>>>): nat {
    if entries == [] then 0 else entries[0].held.bytes + Bytes(entries[1..])
  }

  /** What is kept of a cache: the most recently used entries, as many in a row as fit. */
  ghost predicate KeepsWhatFits<V>(before: seq<Slot<string, Entry<V>>>, kept: seq<Slot<string, Entry<V>>>,
                                   maxBytes: nat)
  {
    exists k: nat :: IsCut(before, kept, maxBytes, k)
  }

  ghost predicate IsCut<V>(before: seq<Slot<string, Entry<V>>>, kept: seq<Slot<string, Entry<V>>>, maxBytes: nat,
                           k: nat)
  {
    && k <= |before| && kept == before[k..] && Bytes(kept) <= maxBytes
    && forall j: nat | j < k :: Bytes(before[j..]) > maxBytes
  }

  /** Drops the least recently used entry until the rest fits. */
  function Evicted<V>(entries: seq<Slot<string, Entry<V>>>, maxBytes: nat): (kept: seq<Slot<string, Entry<V>>>)
    ensures Bytes(kept) <= maxBytes
  {
    if Bytes(entries) <= maxBytes then entries else Evicted(entries[1..], maxBytes)
  }

  /** The lookup's answer when the entry is at hand. */
  function Answer<V>(e: Entry<V>, time: real): Option<Hit<V>> {
    if time >= e.errorUntil then None
    else Some(Hit(e.value, if time < e.freshUntil then Fresh else if time < e.staleUntil then Stale else ErrorOnly))
  }

  /* ---------------------------------------------------------------- a run of calls */

  datatype Call<V> =
    | Get(key: string, time: real)
    | Set(key: string, time: real, value: V, bytes: nat, lifetimes: Lifetimes)

  function AfterGet<V>(entries: seq<Slot<string, Entry<V>>>, key: string, time: real): seq<Slot<string, Entry<V>>> {
    var i := IndexOf(entries, key);
    if i == |entries| then entries
    else if time >= entries[i].held.errorUntil then Without(entries, key)
    else Without(entries, key) + [entries[i]]
  }

  function HitOf<V>(entries: seq<Slot<string, Entry<V>>>, key: string, time: real): Option<Hit<V>> {
    var i := IndexOf(entries, key);
    if i == |entries| then None else Answer(entries[i].held, time)
  }

  function AfterSet<V>(entries: seq<Slot<string, Entry<V>>>, e: Slot<string, Entry<V>>,
                       maxBytes: nat): seq<Slot<string, Entry<V>>>
  {
    if e.held.bytes > maxBytes then Without(entries, e.key) else Evicted(Without(entries, e.key) + [e], maxBytes)
  }

  function After<V>(entries: seq<Slot<string, Entry<V>>>, c: Call<V>, maxBytes: nat): seq<Slot<string, Entry<V>>> {
    match c
    case Get(key, time) => AfterGet(entries, key, time)
    case Set(key, time, value, bytes, lifetimes) =>
      AfterSet(entries, NewEntry(key, value, bytes, lifetimes, time), maxBytes)
  }

  function Cached<V>(calls: seq<Call<V>>, maxBytes: nat): seq<Slot<string, Entry<V>>> {
    if calls == [] then [] else After(Cached(calls[..|calls| - 1], maxBytes), calls[|calls| - 1], maxBytes)
  }

  /* ---------------------------------------------------------------- bytes and order */

  lemma {:induction false} BytesSplit<V>(a: seq<Slot<string, Entry<V>>>, b: seq<Slot<string, Entry<V>>>)
    ensures Bytes(a + b) == Bytes(a) + Bytes(b)
  {
    if a == [] {
      assert a + b == b;
    } else {
      BytesSplit(a[1..], b);
      assert (a + b)[1..] == a[1..] + b;
    }
  }

  lemma {:induction false} BytesWithout<V>(entries: seq<Slot<string, Entry<V>>>, key: string)
    ensures var i := IndexOf(entries, key);
      Bytes(Without(entries, key)) == Bytes(entries) - (if i < |entries| then entries[i].held.bytes else 0)
  {
    hide IndexOf;
    var i := IndexOf(entries, key);
    if i < |entries| {
      assert entries == entries[..i] + entries[i..] && entries[i..][1..] == entries[i + 1..];
      BytesSplit(entries[..i], entries[i..]);
      BytesSplit(entries[..i], entries[i + 1..]);
    }
  }

  /** Evicting drops the shortest least recently used prefix that makes room. */
  lemma {:induction false} EvictsShortestPrefix<V>(entries: seq<Slot<string, Entry<V>>>, maxBytes: nat) returns (k: nat)
    ensures IsCut(entries, Evicted(entries, maxBytes), maxBytes, k)
  {
    k := 0;
    if Bytes(entries) > maxBytes {
      var r := EvictsShortestPrefix(entries[1..], maxBytes);
      k := r + 1;
      assert entries[1..][r..] == entries[k..];
      forall j: nat | j < k ensures Bytes(entries[j..]) > maxBytes {
        if j > 0 { assert entries[1..][j - 1..] == entries[j..]; } else { assert entries[0..] == entries; }
      }
    }
  }

  /** A set that fits keeps its entry, as the most recently used. */
  lemma {:induction false} SetKeepsItsEntry<V>(entries: seq<Slot<string, Entry<V>>>, e: Slot<string, Entry<V>>,
                                               maxBytes: nat)
    requires e.held.bytes <= maxBytes
    ensures var after := AfterSet(entries, e, maxBytes);
      |after| > 0 && after[|after| - 1] == e && KeepsWhatFits(Without(entries, e.key) + [e], after, maxBytes)
  {
    var all := Without(entries, e.key) + [e];
    var k := EvictsShortestPrefix(all, maxBytes);
    assert all[|all| - 1..] == [e];
    assert Bytes([e]) == e.held.bytes;
  }

  /* ---------------------------------------------------------------- the timed map */

  /** The last call about the key, or -1. */
  function LastCall<V>(calls: seq<Call<V>>, key: string): (i: int)
    ensures -1 <= i < |calls|
    ensures i >= 0 ==> calls[i].key == key
    ensures forall j | i < j < |calls| :: calls[j].key != key
  {
    if calls == [] then -1
    else if calls[|calls| - 1].key == key then |calls| - 1
    else LastCall(calls[..|calls| - 1], key)
  }

  /** The last `set` of the key, or -1: what a plain map would hold. */
  function LastSet<V>(calls: seq<Call<V>>, key: string): (i: int)
    ensures -1 <= i < |calls|
    ensures i >= 0 ==> calls[i].Set? && calls[i].key == key
    ensures forall j | i < j < |calls| :: !(calls[j].Set? && calls[j].key == key)
  {
    if calls == [] then -1
    else if calls[|calls| - 1].Set? && calls[|calls| - 1].key == key then |calls| - 1
    else LastSet(calls[..|calls| - 1], key)
  }

  /** What age alone says of a value set with these lifetimes. */
  function StateAtAge(age: real, l: Lifetimes): Option<CacheState> {
    if age >= l.freshMs + l.staleMs + l.errorMs then None
    else if age < l.freshMs then Some(Fresh)
    else if age < l.freshMs + l.staleMs then Some(Stale)
    else Some(ErrorOnly)
  }

  ghost predicate IsLastSet<V>(calls: seq<Call<V>>, e: Slot<string, Entry<V>>) {
    var i := LastSet(calls, e.key);
    i >= 0 && e == NewEntry(e.key, calls[i].value, calls[i].bytes, calls[i].lifetimes, calls[i].time)
  }

  ghost predicate InOrderOfUse<V>(calls: seq<Call<V>>, entries: seq<Slot<string, Entry<V>>>) {
    forall i, j | 0 <= i < j < |entries| :: LastCall(calls, entries[i].key) < LastCall(calls, entries[j].key)
  }

  /** Every entry is the last value set under its key, and the entries stand in the order their keys were last used. */
  ghost predicate Faithful<V>(calls: seq<Call<V>>, entries: seq<Slot<string, Entry<V>>>) {
    && DistinctKeys(entries)
    && (forall e | e in entries :: IsLastSet(calls, e))
    && InOrderOfUse(calls, entries)
  }

  lemma {:induction false} OneMoreCall<V>(calls: seq<Call<V>>, c: Call<V>, key: string)
    requires key != c.key
    ensures LastCall(calls + [c], key) == LastCall(calls, key) && LastSet(calls + [c], key) == LastSet(calls, key)
  {
    assert (calls + [c])[..|calls|] == calls;
  }

  lemma {:induction false} StillLastSet<V>(calls: seq<Call<V>>, c: Call<V>, e: Slot<string, Entry<V>>)
    requires e.key != c.key && IsLastSet(calls, e)
    ensures IsLastSet(calls + [c], e)
  {
    OneMoreCall(calls, c, e.key);
  }

  /** What is left after setting a key aside is faithful to the calls so far and to one more call about that key. */
  lemma {:induction false} SetAside<V>(calls: seq<Call<V>>, c: Call<V>, entries: seq<Slot<string, Entry<V>>>)
    requires Faithful(calls, entries)
    ensures Faithful(calls + [c], Without(entries, c.key))
  {
    var rest := Without(entries, c.key);
    WithoutKeys(entries, c.key);
    forall e | e in rest ensures IsLastSet(calls + [c], e) { StillLastSet(calls, c, e); }
    forall i, j | 0 <= i < j < |rest| ensures LastCall(calls + [c], rest[i].key) < LastCall(calls + [c], rest[j].key) {
      assert rest[i] in rest && rest[j] in rest;
      OneMoreCall(calls, c, rest[i].key);
      OneMoreCall(calls, c, rest[j].key);
      var i' := WithoutAt(entries, c.key, i);
      var j' := WithoutAt(entries, c.key, j);
    }
  }

  /** Adding the entry the last call was about, at the end, keeps it faithful; so does cutting a prefix off. */
  lemma {:induction false} AddUsed<V>(calls: seq<Call<V>>, rest: seq<Slot<string, Entry<V>>>, e: Slot<string, Entry<V>>)
    requires Faithful(calls, rest) && calls != [] && calls[|calls| - 1].key == e.key && IsLastSet(calls, e)
    requires forall o | o in rest :: o.key != e.key
    ensures Faithful(calls, rest + [e])
  {
    forall i, j | 0 <= i < j < |rest + [e]|
      ensures LastCall(calls, (rest + [e])[i].key) < LastCall(calls, (rest + [e])[j].key)
    {
      if j == |rest| {
        assert rest[i] in rest;
        assert LastCall(calls, e.key) == |calls| - 1;
      }
    }
  }

  lemma {:induction false} CutFaithful<V>(calls: seq<Call<V>>, entries: seq<Slot<string, Entry<V>>>, k: nat)
    requires Faithful(calls, entries) && k <= |entries|
    ensures Faithful(calls, entries[k..])
  {
  }

  lemma {:induction false} FaithfulAfter<V>(calls: seq<Call<V>>, c: Call<V>, entries: seq<Slot<string, Entry<V>>>,
                                            maxBytes: nat)
    requires Faithful(calls, entries)
    ensures Faithful(calls + [c], After(entries, c, maxBytes))
  {
    var more := calls + [c];
    assert more[..|more| - 1] == calls;
    SetAside(calls, c, entries);
    WithoutKeys(entries, c.key);
    var rest := Without(entries, c.key);
    match c
    case Get(key, time) =>
      var i := IndexOf(entries, key);
      if i < |entries| {
        assert entries[i] in entries;
        AddUsed(more, rest, entries[i]);
      }
    case Set(key, time, value, bytes, lifetimes) =>
      var e := NewEntry(key, value, bytes, lifetimes, time);
      AddUsed(more, rest, e);
      var k := EvictsShortestPrefix(rest + [e], maxBytes);
      CutFaithful(more, rest + [e], k);
  }

  lemma {:induction false} CachedFaithful<V>(calls: seq<Call<V>>, maxBytes: nat)
    ensures Faithful(calls, Cached(calls, maxBytes))
    ensures Bytes(Cached(calls, maxBytes)) <= maxBytes
  {
    if calls != [] {
      var before := calls[..|calls| - 1];
      CachedFaithful(before, maxBytes);
      assert before + [calls[|calls| - 1]] == calls;
      FaithfulAfter(before, calls[|calls| - 1], Cached(before, maxBytes), maxBytes);
      BytesAfter(Cached(before, maxBytes), calls[|calls| - 1], maxBytes);
    }
  }

  lemma {:induction false} BytesAfter<V>(entries: seq<Slot<string, Entry<V>>>, c: Call<V>, maxBytes: nat)
    requires Bytes(entries) <= maxBytes
    ensures Bytes(After(entries, c, maxBytes)) <= maxBytes
  {
    BytesWithout(entries, c.key);
    var i := IndexOf(entries, c.key);
    if c.Get? && i < |entries| {
      BytesSplit(Without(entries, c.key), [entries[i]]);
      assert Bytes([entries[i]]) == entries[i].held.bytes;
    }
  }

  /**
   * Any hit, after any calls, is the last value set under its key, in the state its age dictates; nothing expired is.
   */
  lemma {:induction false} HitIsLastSet<V>(calls: seq<Call<V>>, maxBytes: nat, key: string, time: real)
    ensures var hit := HitOf(Cached(calls, maxBytes), key, time);
      var i := LastSet(calls, key);
      hit.Some? ==> i >= 0 && StateAtAge(time - calls[i].time, calls[i].lifetimes) == Some(hit.value.state)
                    && hit.value.value == calls[i].value
  {
    CachedFaithful(calls, maxBytes);
    var entries := Cached(calls, maxBytes);
    var k := IndexOf(entries, key);
    if k < |entries| { assert entries[k] in entries; }
  }

  /**
   * What one more set does to an entry of another key, exactly: it stays if and only if it fits together with all that
   * was used after it and the new entry (a set too large for the whole cache removes nothing else).
   */
  lemma {:induction false} StaysIff<V>(entries: seq<Slot<string, Entry<V>>>, i: nat, e: Slot<string, Entry<V>>,
                                       maxBytes: nat)
    requires i < |Without(entries, e.key)| && DistinctKeys(entries) && Bytes(entries) <= maxBytes
    ensures var rest := Without(entries, e.key);
      rest[i] in AfterSet(entries, e, maxBytes)
      <==> (e.held.bytes > maxBytes || Bytes(rest[i..]) + e.held.bytes <= maxBytes)
  {
    var rest := Without(entries, e.key);
    WithoutKeys(entries, e.key);
    if e.held.bytes <= maxBytes {
      var k := EvictsShortestPrefix(rest + [e], maxBytes);
      BytesFrom(rest, e, i);
      if k <= i {
        StillThere(rest + [e], i, k);
      } else {
        NotThere(rest, e, i, k);
      }
    }
  }

  lemma {:induction false} BytesFrom<V>(rest: seq<Slot<string, Entry<V>>>, e: Slot<string, Entry<V>>, i: nat)
    requires i < |rest|
    ensures Bytes((rest + [e])[i..]) == Bytes(rest[i..]) + e.held.bytes
  {
    assert (rest + [e])[i..] == rest[i..] + [e];
    BytesSplit(rest[i..], [e]);
    assert Bytes([e]) == e.held.bytes;
  }

  lemma {:induction false} StillThere<V>(all: seq<Slot<string, Entry<V>>>, i: nat, k: nat)
    requires k <= i < |all|
    ensures all[i] in all[k..] && Bytes(all[i..]) <= Bytes(all[k..])
  {
    assert all[k..][i - k] == all[i];
    assert all[k..] == all[k..i] + all[i..];
    BytesSplit(all[k..i], all[i..]);
  }

  lemma {:induction false} NotThere<V>(rest: seq<Slot<string, Entry<V>>>, e: Slot<string, Entry<V>>, i: nat, k: nat)
    requires DistinctKeys(rest) && i < |rest| && i < k <= |rest| + 1 && forall o | o in rest :: o.key != e.key
    ensures rest[i] !in (rest + [e])[k..]
  {
    assert rest[i] in rest;
    forall j | k <= j < |rest| + 1 ensures (rest + [e])[j] != rest[i] {}
  }

  lemma {:induction false} AppendedBytes<V>(rest: seq<Slot<string, Entry<V>>>, e: Slot<string, Entry<V>>)
    requires DistinctKeys(rest) && forall o | o in rest :: o.key != e.key
    ensures DistinctKeys(rest + [e]) && Bytes(rest + [e]) == Bytes(rest) + e.held.bytes
  {
    BytesSplit(rest, [e]);
    assert Bytes([e]) == e.held.bytes;
    Appended(rest, e);
  }

  /* ---------------------------------------------------------------- the cache itself */

  class Lru<V> {
    const maxBytes: nat
    var entries: seq<Slot<string, Entry<V>>>
    var used: int

    ghost predicate Valid()
      reads this
    {
      DistinctKeys(entries) && used == Bytes(entries) && used <= maxBytes
    }

    constructor (maxBytes: nat)
      ensures Valid() && this.maxBytes == maxBytes && entries == Cached([], maxBytes)
    {
      this.maxBytes := maxBytes;
      entries := [];
      used := 0;
    }

    method Drop(key: string)
      requires DistinctKeys(entries) && used == Bytes(entries)
      modifies this
      ensures entries == Without(old(entries), key) && DistinctKeys(entries) && used == Bytes(entries)
    {
      var i := IndexOf(entries, key);
      BytesWithout(entries, key);
      WithoutKeys(entries, key);
      if i < |entries| {
        used := used - entries[i].held.bytes;
        entries := entries[..i] + entries[i + 1..];
      }
    }

    method Get(key: string, time: real) returns (hit: Option<Hit<V>>)
      requires Valid()
      modifies this
      ensures Valid()
      ensures entries == After(old(entries), Call.Get(key, time), maxBytes)
      ensures hit == HitOf(old(entries), key, time)
    {
      var i := IndexOf(entries, key);
      if i == |entries| { return None; }
      var entry := entries[i].held;
      if time >= entry.errorUntil {
        Drop(key);
        BytesWithout(old(entries), key);
        return None;
      }
      BytesWithout(entries, key);
      WithoutKeys(entries, key);
      entries := entries[..i] + entries[i + 1..];
      AppendedBytes(entries, Slot(key, entry));
      entries := entries + [Slot(key, entry)];
      if time < entry.freshUntil { return Some(Hit(entry.value, Fresh)); }
      if time < entry.staleUntil { return Some(Hit(entry.value, Stale)); }
      return Some(Hit(entry.value, ErrorOnly));
    }

    method Set(key: string, time: real, value: V, bytes: nat, lifetimes: Lifetimes)
      requires Valid()
      modifies this
      ensures Valid()
      ensures entries == After(old(entries), Call.Set(key, time, value, bytes, lifetimes), maxBytes)
    {
      BytesWithout(entries, key);
      WithoutKeys(entries, key);
      Drop(key);
      if bytes > maxBytes { return; }
      var freshUntil := time + lifetimes.freshMs;
      var staleUntil := freshUntil + lifetimes.staleMs;
      var entry := Entry(value, bytes, freshUntil, staleUntil, staleUntil + lifetimes.errorMs);
      AppendedBytes(entries, Slot(key, entry));
      entries := entries + [Slot(key, entry)];
      used := used + bytes;
      Evict();
    }

    /** The loop at the end of a set: drops the least recently used entries until the rest fits. */
    method Evict()
      requires DistinctKeys(entries) && used == Bytes(entries)
      modifies this
      ensures Valid() && entries == Evicted(old(entries), maxBytes)
    {
      while used > maxBytes
        invariant used == Bytes(entries) && DistinctKeys(entries)
        invariant Evicted(entries, maxBytes) == Evicted(old(entries), maxBytes)
        decreases |entries|
      {
        var oldest := entries[0].key;
        assert Without(entries, oldest) == entries[1..];
        Drop(oldest);
      }
    }
  }
}
