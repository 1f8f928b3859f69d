/** The in-memory part of server/cache.go: two FIFO maps, one for values and one for errors. */
module LocalCache {
  import opened Prelude

  const VALUE_CAP := 8192
  const ERROR_CAP := 8192
  const OVERHEAD := 512

  // ---------- The bounded FIFO map being refined ----------

  datatype Key = Key(text: string)

  /** What an entry holds: a value or an error. */
  datatype Answer<V> = Value(value: V) | Failure(code: string)

  /** One key of the abstract map; the map is a sequence in insertion order. */
  datatype Slot<V> = Slot(key: Key, answer: Answer<V>, expiresAt: int)

  /** `cacheEntryMemorySize`; `json` is the length of a value's JSON text. */
  function MemorySize<V>(json: V -> nat, key: Key, answer: Answer<V>): nat {
    match answer
    case Value(v) => OVERHEAD + 2 * |key.text| + 2 * json(v)
    case Failure(_) => 0
  }

  function Bytes<V>(json: V -> nat, slots: seq<Slot<V>>): nat {
    if slots == [] then 0 else MemorySize(json, slots[0].key, slots[0].answer) + Bytes(json, slots[1..])
  }

  function Without<V>(slots: seq<Slot<V>>, key: Key): (r: seq<Slot<V>>)
    ensures |r| <= |slots|
  {
    if slots == [] then []
    else (if slots[0].key == key then [] else [slots[0]]) + Without(slots[1..], key)
  }

  predicate Fits<V>(json: V -> nat, maxBytes: int, slots: seq<Slot<V>>) {
    Bytes(json, slots) <= maxBytes && |slots| <= VALUE_CAP
  }

  /** Evicts from the front until both caps are met. */
  function Evict<V>(json: V -> nat, maxBytes: int, slots: seq<Slot<V>>): seq<Slot<V>> {
    if slots == [] || Fits(json, maxBytes, slots) then slots else Evict(json, maxBytes, slots[1..])
  }

  function StoreValue<V>(json: V -> nat, maxBytes: int, slots: seq<Slot<V>>, slot: Slot<V>): seq<Slot<V>> {
    Evict(json, maxBytes, Without(slots, slot.key) + [slot])
  }

  function StoreError<V>(slots: seq<Slot<V>>, slot: Slot<V>): seq<Slot<V>> {
    var all := Without(slots, slot.key) + [slot];
    if |all| > ERROR_CAP then all[1..] else all
  }

  lemma BytesSuffix<V>(json: V -> nat, slots: seq<Slot<V>>, i: nat)
    requires i <= |slots|
    ensures Bytes(json, slots[i..]) <= Bytes(json, slots)
  {
    if i > 0 {
      assert slots[1..][i - 1..] == slots[i..];
      BytesSuffix(json, slots[1..], i - 1);
    } else {
      assert slots[0..] == slots;
    }
  }

  /** What survives an eviction is the longest suffix within both caps. */
  lemma {:induction false} EvictLongestSuffix<V>(json: V -> nat, maxBytes: int, slots: seq<Slot<V>>) returns (i: nat)
    ensures i <= |slots| && Evict(json, maxBytes, slots) == slots[i..]
    ensures forall j :: 0 <= j < i ==> !Fits(json, maxBytes, slots[j..])
    ensures i < |slots| ==> Fits(json, maxBytes, slots[i..])
  {
    if slots == [] || Fits(json, maxBytes, slots) {
      i := 0;
      assert slots[0..] == slots;
    } else {
      var k := EvictLongestSuffix(json, maxBytes, slots[1..]);
      i := k + 1;
      assert slots[1..][k..] == slots[i..];
      forall j | 0 <= j < i ensures !Fits(json, maxBytes, slots[j..]) {
        if j > 0 {
          assert slots[1..][j - 1..] == slots[j..];
        } else {
          assert slots[0..] == slots;
        }
      }
    }
  }

  /** A stored value that is not too large is always kept, last; the others that survive are the
      newest ones that fit beside it. */
  lemma StoreKeepsNewest<V>(json: V -> nat, maxBytes: int, slots: seq<Slot<V>>, slot: Slot<V>) returns (i: nat)
    requires MemorySize(json, slot.key, slot.answer) <= maxBytes
    ensures var others := Without(slots, slot.key);
            && i <= |others|
            && StoreValue(json, maxBytes, slots, slot) == others[i..] + [slot]
            && Bytes(json, others[i..] + [slot]) <= maxBytes && |others| - i < 8192
            && forall j :: 0 <= j < i ==> Bytes(json, others[j..] + [slot]) > maxBytes || |others| - j >= 8192
  {
    var others := Without(slots, slot.key);
    var all := others + [slot];
    i := EvictLongestSuffix(json, maxBytes, all);
    var last := all[|others|..];
    assert last == [slot] && Bytes(json, [slot][1..]) == 0;
    assert Fits(json, maxBytes, last);
    assert i <= |others|;
    assert all[i..] == others[i..] + [slot];
    forall j | 0 <= j < i ensures Bytes(json, others[j..] + [slot]) > maxBytes || |others| - j >= 8192 {
      assert all[j..] == others[j..] + [slot];
      assert !Fits(json, maxBytes, all[j..]);
    }
  }

  /** A stored error is kept, last, with the newest 8191 of the others. */
  lemma StoreErrorKeepsNewest<V>(slots: seq<Slot<V>>, slot: Slot<V>)
    requires |slots| <= 8192
    ensures var others := Without(slots, slot.key);
            StoreError(slots, slot) == (if |others| == 8192 then others[1..] else others) + [slot]
            && |StoreError(slots, slot)| <= 8192
  {
    var others := Without(slots, slot.key);
    if |others| == 8192 {
      assert (others + [slot])[1..] == others[1..] + [slot];
    }
  }

  /** Nothing but the key's own entries goes. */
  lemma WithoutKeeps<V>(slots: seq<Slot<V>>, key: Key)
    ensures forall s :: s in Without(slots, key) <==> s in slots && s.key != key
  {
    if slots != [] {
      assert slots == [slots[0]] + slots[1..];
      WithoutKeeps(slots[1..], key);
    }
  }

  // ---------- The implementation ----------

  class CacheEntry<V> {
    const answer: Answer<V>
    const expiresAt: int
    var size: int

    constructor (answer: Answer<V>, expiresAt: int)
      ensures this.answer == answer && this.expiresAt == expiresAt && size == 0
    {
      this.answer, this.expiresAt, this.size := answer, expiresAt, 0;
    }
  }

  /** The slots of a key list, read through the map beside it. */
  ghost function View<V>(order: seq<Key>, entries: map<Key, CacheEntry<V>>): (r: seq<Slot<V>>)
    requires forall k :: k in order ==> k in entries
    ensures |r| == |order|
    ensures forall i :: 0 <= i < |r| ==>
      r[i] == Slot(order[i], entries[order[i]].answer, entries[order[i]].expiresAt)
  {
    if order == [] then []
    else [Slot(order[0], entries[order[0]].answer, entries[order[0]].expiresAt)] + View(order[1..], entries)
  }

  lemma WithoutAbsent<V>(slots: seq<Slot<V>>, key: Key)
    requires forall i :: 0 <= i < |slots| ==> slots[i].key != key
    ensures Without(slots, key) == slots
  {}

  lemma WithoutConcat<V>(a: seq<Slot<V>>, b: seq<Slot<V>>, key: Key)
    ensures Without(a + b, key) == Without(a, key) + Without(b, key)
  {
    if a == [] {
      assert a + b == b;
    } else {
      assert (a + b)[1..] == a[1..] + b;
    }
  }

  lemma {:induction false} WithoutAt<V>(slots: seq<Slot<V>>, i: nat)
    requires i < |slots| && forall j :: 0 <= j < |slots| && j != i ==> slots[j].key != slots[i].key
    ensures Without(slots, slots[i].key) == slots[..i] + slots[i + 1..]
  {
    hide Without;
    var a, s, b, key := slots[..i], slots[i], slots[i + 1..], slots[i].key;
    WithoutAbsent(a, key);
    WithoutAbsent(b, key);
    WithoutOnly(s);
    WithoutConcat(a, [s], key);
    WithoutConcat(a + [s], b, key);
    assert slots == a + [s] + b;
    assert a + [] == a;
  }

  lemma WithoutOnly<V>(slot: Slot<V>)
    ensures Without([slot], slot.key) == []
  {}

  lemma BytesConcat<V>(json: V -> nat, a: seq<Slot<V>>, b: seq<Slot<V>>)
    ensures Bytes(json, a + b) == Bytes(json, a) + Bytes(json, b)
  {
    if a == [] {
      assert a + b == b;
    } else {
      assert (a + b)[1..] == a[1..] + b;
    }
  }

  lemma {:induction false} BytesAt<V>(json: V -> nat, slots: seq<Slot<V>>, i: nat)
    requires i < |slots|
    ensures Bytes(json, slots)
         == MemorySize(json, slots[i].key, slots[i].answer) + Bytes(json, slots[..i] + slots[i + 1..])
  {
    assert slots == slots[..i] + ([slots[i]] + slots[i + 1..]);
    BytesConcat(json, slots[..i], [slots[i]] + slots[i + 1..]);
    BytesConcat(json, slots[..i], slots[i + 1..]);
  }

  /** A FIFO map: its key list names every key once. */
  ghost predicate Listed<V>(order: seq<Key>, entries: map<Key, CacheEntry<V>>) {
    Distinct(order) && Elements(order) == entries.Keys
  }

  lemma {:induction false} ListedSize<V>(order: seq<Key>, entries: map<Key, CacheEntry<V>>)
    requires Listed(order, entries)
    ensures |order| == |entries| && forall k :: k in order <==> k in entries
  {
    DistinctSize(order);
    assert forall k :: k in order <==> k in Elements(order);
    assert |entries| == |entries.Keys|;
  }

  /** `slices.Index`. */
  method Index(s: seq<Key>, key: Key) returns (i: int)
    ensures 0 <= i ==> i < |s| && s[i] == key
    ensures i < 0 ==> key !in s
  {
    i := 0;
    while i < |s|
      invariant 0 <= i <= |s| && key !in s[..i]
    {
      if s[i] == key {
        return;
      }
      i := i + 1;
    }
    i := -1;
  }

  lemma {:induction false} RemoveElements(order: seq<Key>, i: nat)
    requires Distinct(order) && i < |order|
    ensures Distinct(order[..i] + order[i + 1..])
    ensures Elements(order[..i] + order[i + 1..]) == Elements(order) - {order[i]}
  {
    var rest := order[..i] + order[i + 1..];
    forall k | k in order && k != order[i] ensures k in rest {
      var j :| 0 <= j < |order| && order[j] == k;
      assert rest[if j < i then j else j - 1] == k;
    }
    assert forall k :: k in rest ==> k in order && k != order[i];
  }

  lemma ViewFraming<V>(order: seq<Key>, entries: map<Key, CacheEntry<V>>, other: map<Key, CacheEntry<V>>)
    requires forall k :: k in order ==> k in entries && k in other && entries[k] == other[k]
    ensures View(order, entries) == View(order, other)
  {}

  lemma ViewConcat<V>(a: seq<Key>, b: seq<Key>, entries: map<Key, CacheEntry<V>>)
    requires forall k :: k in a + b ==> k in entries
    ensures forall k :: k in a || k in b ==> k in a + b
    ensures View(a + b, entries) == View(a, entries) + View(b, entries)
  {
    assert forall k :: k in a || k in b ==> k in a + b;
  }

  lemma {:induction false} RemoveListed<V>(order: seq<Key>, entries: map<Key, CacheEntry<V>>, i: nat)
    requires Listed(order, entries) && i < |order|
    ensures forall k :: k in order ==> k in entries
    ensures var rest, left := order[..i] + order[i + 1..], entries - {order[i]};
            && Listed(rest, left) && (forall k :: k in rest ==> k in left)
            && View(rest, left) == View(order, entries)[..i] + View(order, entries)[i + 1..]
  {
    hide Listed, View;
    var rest, left := order[..i] + order[i + 1..], entries - {order[i]};
    ListedSize(order, entries);
    RestListed(order, entries, i);
    ListedSize(rest, left);
    ViewFraming(rest, left, entries);
    ViewConcat(order[..i], order[i + 1..], entries);
    ViewParts(order, entries, i);
  }

  lemma RestListed<V>(order: seq<Key>, entries: map<Key, CacheEntry<V>>, i: nat)
    requires Listed(order, entries) && i < |order|
    ensures Listed(order[..i] + order[i + 1..], entries - {order[i]})
  {
    hide Distinct, Elements;
    RemoveElements(order, i);
    assert (entries - {order[i]}).Keys == entries.Keys - {order[i]};
  }

  lemma ViewParts<V>(order: seq<Key>, entries: map<Key, CacheEntry<V>>, i: nat)
    requires i < |order| && forall k :: k in order ==> k in entries
    ensures View(order[..i], entries) == View(order, entries)[..i]
    ensures View(order[i + 1..], entries) == View(order, entries)[i + 1..]
  {}

  lemma {:induction false} RemoveView<V>(order: seq<Key>, entries: map<Key, CacheEntry<V>>, i: nat)
    requires Listed(order, entries) && i < |order| && forall k :: k in order ==> k in entries
    ensures Without(View(order, entries), order[i]) == View(order, entries)[..i] + View(order, entries)[i + 1..]
  {
    WithoutAt(View(order, entries), i);
  }

  lemma AppendElements(order: seq<Key>, key: Key)
    requires Distinct(order) && key !in Elements(order)
    ensures Distinct(order + [key]) && Elements(order + [key]) == Elements(order) + {key}
  {
    var all := order + [key];
    forall i, j | 0 <= i < j < |all| ensures all[i] != all[j] {
      assert all[i] in order;
    }
  }

  lemma {:induction false} AppendListed<V>(
      order: seq<Key>, entries: map<Key, CacheEntry<V>>, key: Key, entry: CacheEntry<V>)
    requires Listed(order, entries) && key !in entries
    ensures Listed(order + [key], entries[key := entry])
    ensures forall k :: k in order + [key] ==> k in entries[key := entry]
    ensures forall k :: k in order ==> k in entries
    ensures View(order + [key], entries[key := entry])
         == View(order, entries) + [Slot(key, entry.answer, entry.expiresAt)]
  {
    hide Distinct, Elements;
    ListedSize(order, entries);
    AppendElements(order, key);
    var grown := entries[key := entry];
    assert grown.Keys == entries.Keys + {key};
    ListedSize(order + [key], grown);
    ViewFraming(order, entries, grown);
    ViewConcat(order, [key], grown);
    assert View([key], grown) == [Slot(key, entry.answer, entry.expiresAt)];
  }

  lemma {:induction false} WithoutUnlisted<V>(order: seq<Key>, entries: map<Key, CacheEntry<V>>, key: Key)
    requires Listed(order, entries) && key !in entries
    ensures (forall k :: k in order ==> k in entries) && Without(View(order, entries), key) == View(order, entries)
  {
    ListedSize(order, entries);
    WithoutAbsent(View(order, entries), key);
  }

  /** No entry object is stored under two keys. */
  ghost predicate Owned<V>(entries: map<Key, CacheEntry<V>>) {
    forall j, k :: j in entries && k in entries && j != k ==> entries[j] != entries[k]
  }

  lemma OwnedWithout<V>(entries: map<Key, CacheEntry<V>>, key: Key)
    requires Owned(entries)
    ensures Owned(entries - {key})
  {}

  class Cache<V> {
    const maxBytes: int
    const json: V -> nat
    var entries: map<Key, CacheEntry<V>>
    var order: seq<Key>
    var usedBytes: int
    var errEntries: map<Key, CacheEntry<V>>
    var errOrder: seq<Key>

    /** Everything but the caps. */
    ghost predicate Consistent()
      reads this, entries.Values
    {
      && Listed(order, entries) && Listed(errOrder, errEntries)
      && (forall k :: k in order ==> k in entries) && (forall k :: k in errOrder ==> k in errEntries)
      && entries.Keys !! errEntries.Keys
      && (forall k :: k in entries ==> entries[k].answer.Value?)
      && (forall k :: k in errEntries ==> errEntries[k].answer.Failure?)
      && (forall k :: k in entries ==> entries[k].size == MemorySize(json, k, entries[k].answer))
      && Owned(entries)
      && usedBytes == Bytes(json, View(order, entries))
    }

    ghost predicate Valid()
      reads this, entries.Values
    {
      && Consistent()
      && (order != [] ==> Fits(json, maxBytes, View(order, entries)))
      && |errOrder| <= ERROR_CAP
    }

    /** The values, oldest first. */
    ghost function Values(): seq<Slot<V>>
      reads this
      requires forall k :: k in order ==> k in entries
    {
      View(order, entries)
    }

    /** The errors, oldest first. */
    ghost function Errors(): seq<Slot<V>>
      reads this
      requires forall k :: k in errOrder ==> k in errEntries
    {
      View(errOrder, errEntries)
    }

    constructor (maxBytes: int, json: V -> nat)
      ensures Valid() && Values() == [] && Errors() == [] && this.maxBytes == maxBytes && this.json == json
    {
      this.maxBytes, this.json := maxBytes, json;
      entries, order, usedBytes := map[], [], 0;
      errEntries, errOrder := map[], [];
    }

    /** `removeLocalLocked` for an error. */
    method RemoveError(key: Key)
      requires Consistent() && key in errEntries
      modifies this`errEntries, this`errOrder
      ensures Consistent() && key !in entries && key !in errEntries
      ensures Values() == Without(old(Values()), key) && Errors() == Without(old(Errors()), key)
    {
      hide View, Without, Bytes, Listed, Owned, MemorySize;
      WithoutUnlisted(order, entries, key);
      ListedSize(errOrder, errEntries);
      var i := Index(errOrder, key);
      RemoveListed(errOrder, errEntries, i);
      RemoveView(errOrder, errEntries, i);
      errEntries := errEntries - {key};
      errOrder := errOrder[..i] + errOrder[i + 1..];
    }

    /** `removeLocalLocked` for a value: the clamp of `usedBytes` at zero never takes effect. */
    method RemoveValue(key: Key, entry: CacheEntry<V>)
      requires Consistent() && key in entries && entries[key] == entry
      modifies this`entries, this`order, this`usedBytes
      ensures Consistent() && key !in entries && key !in errEntries
      ensures entries == old(entries) - {key} && usedBytes == old(usedBytes) - entry.size >= 0
      ensures Values() == Without(old(Values()), key) && Errors() == Without(old(Errors()), key)
    {
      hide View, Without, Bytes, Listed, Owned;
      WithoutUnlisted(errOrder, errEntries, key);
      ListedSize(order, entries);
      var i := Index(order, key);
      RemoveListed(order, entries, i);
      RemoveView(order, entries, i);
      BytesAt(json, Values(), i);
      OwnedWithout(entries, key);
      usedBytes := Max(usedBytes - entry.size, 0);
      entries := entries - {key};
      order := order[..i] + order[i + 1..];
    }

    /** `removeLocalLocked`. */
    method RemoveLocalLocked(key: Key, entry: CacheEntry<V>)
      requires Consistent()
      requires (key in entries && entries[key] == entry) || (key in errEntries && errEntries[key] == entry)
      modifies this
      ensures Consistent() && key !in entries && key !in errEntries
      ensures entries == old(entries) - {key}
      ensures Values() == Without(old(Values()), key) && Errors() == Without(old(Errors()), key)
    {
      hide View, Without, Bytes, Listed, Owned, MemorySize;
      if entry.answer.Failure? {
        RemoveError(key);
      } else {
        RemoveValue(key, entry);
      }
    }

    /** `localGet`: a live entry is returned, a dead one is dropped. */
    method LocalGet(key: Key, now: int) returns (found: Option<CacheEntry<V>>)
      requires Valid()
      modifies this
      ensures Valid()
      ensures found.Some? ==>
        && found.value.expiresAt > now
        && Slot(key, found.value.answer, found.value.expiresAt) in old(Values() + Errors())
        && Values() == old(Values()) && Errors() == old(Errors())
      ensures found.None? ==>
        && (forall s :: s in old(Values() + Errors()) && s.key == key ==> s.expiresAt <= now)
        && Values() == Without(old(Values()), key) && Errors() == Without(old(Errors()), key)
    {
      hide View, Without, Bytes, Listed, Owned, MemorySize;
      var hit := if key in entries then Some(entries[key])
                 else if key in errEntries then Some(errEntries[key]) else None;
      SlotsOfKey(order, entries, key);
      SlotsOfKey(errOrder, errEntries, key);
      if hit.None? {
        WithoutUnlisted(order, entries, key);
        WithoutUnlisted(errOrder, errEntries, key);
        return None;
      }
      if hit.value.expiresAt > now {
        return hit;
      }
      FewerBytes(Values(), key);
      RemoveLocalLocked(key, hit.value);
      found := None;
    }

    /** What is left when the oldest value goes. */
    lemma OldestGone()
      requires Consistent() && order != []
      ensures var rest, left := order[1..], entries - {order[0]};
              && Listed(rest, left) && (forall k :: k in rest ==> k in left) && View(rest, left) == Values()[1..]
              && usedBytes - entries[order[0]].size == Bytes(json, Values()[1..])
              && left.Keys !! errEntries.Keys && Owned(left)
    {
      hide View, Without, Bytes, Listed, Owned;
      ListedSize(order, entries);
      RemoveListed(order, entries, 0);
      assert order[..0] + order[1..] == order[1..];
      BytesAt(json, Values(), 0);
      assert Values()[..0] + Values()[1..] == Values()[1..];
      OwnedWithout(entries, order[0]);
    }

    /** Drops the oldest value. */
    method DropOldest()
      requires Consistent() && order != []
      modifies this`entries, this`order, this`usedBytes
      ensures Consistent() && Values() == old(Values())[1..] && Errors() == old(Errors())
    {
      hide View, Without, Bytes, Listed, Owned, MemorySize;
      var oldest := order[0];
      OldestGone();
      order := order[1..];
      usedBytes := usedBytes - entries[oldest].size;
      entries := entries - {oldest};
    }

    method Append(key: Key, entry: CacheEntry<V>)
      requires Consistent() && key !in entries && key !in errEntries
      requires entry.answer.Value? && entry.size == MemorySize(json, key, entry.answer)
      requires forall k :: k in entries ==> entries[k] != entry
      modifies this`entries, this`order, this`usedBytes
      ensures Consistent() && order != []
      ensures Values() == old(Values()) + [Slot(key, entry.answer, entry.expiresAt)] && Errors() == old(Errors())
    {
      hide View, Without, Listed;
      AppendListed(order, entries, key, entry);
      BytesConcat(json, Values(), [Slot(key, entry.answer, entry.expiresAt)]);
      entries := entries[key := entry];
      order := order + [key];
      usedBytes := usedBytes + entry.size;
    }

    method AppendError(key: Key, entry: CacheEntry<V>)
      requires Consistent() && key !in entries && key !in errEntries && entry.answer.Failure? && |errOrder| <= ERROR_CAP
      modifies this`errEntries, this`errOrder
      ensures Consistent() && |errOrder| <= ERROR_CAP && Values() == old(Values())
      ensures var all := old(Errors()) + [Slot(key, entry.answer, entry.expiresAt)];
              Errors() == if |all| > ERROR_CAP then all[1..] else all
    {
      hide View, Without, Listed, Bytes, Owned, MemorySize;
      AppendListed(errOrder, errEntries, key, entry);
      errEntries := errEntries[key := entry];
      errOrder := errOrder + [key];
      if |errOrder| > ERROR_CAP {
        RemoveListed(errOrder, errEntries, 0);
        assert errOrder[..0] + errOrder[1..] == errOrder[1..];
        assert Errors()[..0] + Errors()[1..] == Errors()[1..];
        errEntries := errEntries - {errOrder[0]};
        errOrder := errOrder[1..];
      }
    }

    /** The first part of `storeLocal`: whatever the key held goes. */
    method Replace(key: Key)
      requires Valid()
      modifies this
      ensures Consistent() && key !in entries && key !in errEntries && |errOrder| <= ERROR_CAP
      ensures forall k :: k in entries ==> k in old(entries) && entries[k] == old(entries)[k]
      ensures order != [] ==> Fits(json, maxBytes, Values())
      ensures Values() == Without(old(Values()), key) && Errors() == Without(old(Errors()), key)
    {
      hide View, Without, Listed, Bytes, Owned, MemorySize, Fits;
      var oldValue := if key in entries then Some(entries[key]) else None;
      var oldError := if key in errEntries then Some(errEntries[key]) else None;
      FewerBytes(Values(), key);
      if oldValue.Some? {
        RemoveLocalLocked(key, oldValue.value);
      } else if oldError.Some? {
        RemoveLocalLocked(key, oldError.value);
      } else {
        WithoutUnlisted(order, entries, key);
        WithoutUnlisted(errOrder, errEntries, key);
      }
    }

    /** `storeLocal`. A value's entry must not be in the cache yet: its size is written. */
    method StoreLocal(key: Key, entry: CacheEntry<V>)
      requires Valid()
      requires entry.answer.Value? ==> forall k :: k in entries ==> entries[k] != entry
      modifies this, entry`size
      ensures Valid()
      ensures entry.answer.Value? ==> entry.size == 512 + 2 * |key.text| + 2 * json(entry.answer.value)
      ensures var slot := Slot(key, entry.answer, entry.expiresAt);
              if entry.answer.Failure? then
                Values() == Without(old(Values()), key) && Errors() == StoreError(old(Errors()), slot)
              else if MemorySize(json, key, entry.answer) > maxBytes then
                Values() == old(Values()) && Errors() == old(Errors())
              else
                Values() == StoreValue(json, maxBytes, old(Values()), slot) && Errors() == Without(old(Errors()), key)
    {
      hide View, Without, Listed, Bytes, Owned, Evict, Fits;
      if entry.answer.Value? {
        entry.size := MemorySize(json, key, entry.answer);
        if entry.size <= 0 || entry.size > maxBytes {
          return;
        }
      }
      Replace(key);
      if entry.answer.Failure? {
        AppendError(key, entry);
        return;
      }
      Append(key, entry);
      EvictOldest();
    }

    /** The eviction loop of `storeLocal`. */
    method EvictOldest()
      requires Consistent() && |errOrder| <= ERROR_CAP
      modifies this`entries, this`order, this`usedBytes
      ensures Valid() && Errors() == old(Errors())
      ensures Values() == Evict(json, maxBytes, old(Values()))
    {
      hide View, Without, Listed, Bytes, Owned, MemorySize;
      ghost var target := Evict(json, maxBytes, Values());
      ListedSize(order, entries);
      while (usedBytes > maxBytes || |entries| > VALUE_CAP) && |order| > 0
        invariant Consistent() && |entries| == |order|
        invariant Evict(json, maxBytes, Values()) == target
        invariant Errors() == old(Errors())
        decreases |order|
      {
        DropOldest();
        ListedSize(order, entries);
      }
    }

    lemma FewerBytes(slots: seq<Slot<V>>, key: Key)
      ensures Fits(json, maxBytes, slots) ==> Fits(json, maxBytes, Without(slots, key))
    {
      WithoutBytes(json, slots, key);
    }
  }

  lemma WithoutBytes<V>(json: V -> nat, slots: seq<Slot<V>>, key: Key)
    ensures Bytes(json, Without(slots, key)) <= Bytes(json, slots)
  {
    if slots != [] {
      WithoutBytes(json, slots[1..], key);
      BytesConcat(json, if slots[0].key == key then [] else [slots[0]], Without(slots[1..], key));
    }
  }

  /** A key's one slot, if it has any, shows its entry. */
  lemma SlotsOfKey<V>(order: seq<Key>, entries: map<Key, CacheEntry<V>>, key: Key)
    requires Listed(order, entries)
    ensures forall k :: k in order ==> k in entries
    ensures forall s :: s in View(order, entries) && s.key == key ==>
      key in entries && s == Slot(key, entries[key].answer, entries[key].expiresAt)
    ensures key in entries ==> Slot(key, entries[key].answer, entries[key].expiresAt) in View(order, entries)
  {
    ListedSize(order, entries);
    if key in entries {
      var i :| 0 <= i < |order| && order[i] == key;
      assert View(order, entries)[i] in View(order, entries);
    }
  }
}
