/** The part of Redis the gateway uses: keys with expiry, counters, and pub/sub mailboxes. Every
    command is atomic and does not fail. A key is gone from the instant of its expiry on. */
module RedisStore {
  import opened Wrappers

  type Instant = t: real | 0.0 <= t

  datatype Value = Text(text: string) | Count(n: int)
  datatype Entry = Entry(value: Value, expiresAt: Option<real>)

  /** A subscriber's mailbox; the first poll consumes the confirmation of the subscription. */
  datatype Subscription = Subscription(channel: string, confirmed: bool, messages: seq<string>)

  predicate Fresh(e: Entry, now: Instant) {
    e.expiresAt.None? || now < e.expiresAt.value
  }

  predicate Alive<K>(store: map<K, Entry>, k: K, now: Instant) {
    k in store && Fresh(store[k], now)
  }

  function Lookup<K>(store: map<K, Entry>, k: K, now: Instant): Option<Value> {
    if Alive(store, k, now) then Some(store[k].value) else None
  }

  /** How many of some keys are live is what DEL returns. */
  function LiveAmong<K>(keys: set<K>, store: map<K, Entry>, now: Instant): set<K> {
    set k | k in keys && Alive(store, k, now)
  }

  function SetEx<K>(store: map<K, Entry>, k: K, v: Value, now: Instant, ttl: int): map<K, Entry> {
    store[k := Entry(v, Some(now + ttl as real))]
  }

  function CountAt<K>(store: map<K, Entry>, k: K, now: Instant): int {
    match Lookup(store, k, now)
    case Some(Count(n)) => n
    case _ => 0
  }

  /** INCR keeps the expiry of a live key and starts a dead one without expiry. */
  function Incr<K>(store: map<K, Entry>, k: K, now: Instant): map<K, Entry> {
    store[k := Entry(Count(CountAt(store, k, now) + 1), if Alive(store, k, now) then store[k].expiresAt else None)]
  }

  function Expire<K>(store: map<K, Entry>, k: K, now: Instant, ttl: int): map<K, Entry> {
    if Alive(store, k, now) then store[k := Entry(store[k].value, Some(now + ttl as real))] else store
  }

  /** Every mailbox of the channel gets the message as its last one; the subscribers and all other
      mailboxes stay as they are. */
  function Publish(subs: map<nat, Subscription>, channel: string, message: string): (after: map<nat, Subscription>)
    ensures after.Keys == subs.Keys
    ensures forall id :: id in subs ==> after[id].channel == subs[id].channel && after[id].confirmed == subs[id].confirmed
    ensures forall id :: id in subs && subs[id].channel == channel ==> after[id].messages == subs[id].messages + [message]
    ensures forall id :: id in subs && subs[id].channel != channel ==> after[id].messages == subs[id].messages
  {
    map id | id in subs ::
      if subs[id].channel == channel then subs[id].(messages := subs[id].messages + [message]) else subs[id]
  }

  class Redis<K(==)> {
    var now: Instant
    var store: map<K, Entry>
    var subs: map<nat, Subscription>

    constructor (start: Instant)
      ensures now == start && store == map[] && subs == map[]
    {
      now, store, subs := start, map[], map[];
    }

    method Tick(elapsed: real)
      requires 0.0 <= elapsed
      modifies this`now
      ensures now == old(now) + elapsed
    {
      now := now + elapsed;
    }

    method Get(k: K) returns (v: Option<Value>)
      ensures v == Lookup(store, k, now)
    {
      v := None;
      if k in store {
        var entry := store[k];
        if Fresh(entry, now) {
          v := Some(entry.value);
        }
      }
    }

    method Set(k: K, v: Value, ttl: int)
      modifies this`store
      ensures store == SetEx(old(store), k, v, now, ttl)
    {
      store := store[k := Entry(v, Some(now + ttl as real))];
    }

    /** SET NX EX. */
    method SetIfAbsent(k: K, v: Value, ttl: int) returns (stored: bool)
      modifies this`store
      ensures stored == !Alive(old(store), k, now)
      ensures store == if stored then SetEx(old(store), k, v, now, ttl) else old(store)
    {
      var present := Get(k);
      stored := present.None?;
      if stored {
        Set(k, v, ttl);
      }
    }

    /** DEL of several keys; returns how many were live. */
    method Delete(keys: set<K>) returns (deleted: nat)
      modifies this`store
      ensures store == old(store) - keys
      ensures deleted == |LiveAmong(keys, old(store), now)|
      ensures deleted == |set k | k in keys && k in old(store)
                                  && (old(store)[k].expiresAt.None? || now < old(store)[k].expiresAt.value)|
    {
      assert LiveAmong(keys, store, now)
          == set k | k in keys && k in store && (store[k].expiresAt.None? || now < store[k].expiresAt.value);
      deleted := |LiveAmong(keys, store, now)|;
      store := store - keys;
    }

    method Increment(k: K) returns (n: int)
      modifies this`store
      ensures n == CountAt(old(store), k, now) + 1
      ensures store == Incr(old(store), k, now)
    {
      var v := Get(k);
      n := (if v.Some? && v.value.Count? then v.value.n else 0) + 1;
      store := store[k := Entry(Count(n), if v.Some? then store[k].expiresAt else None)];
    }

    method ExpireIn(k: K, ttl: int)
      modifies this`store
      ensures store == Expire(old(store), k, now, ttl)
    {
      var v := Get(k);
      if v.Some? {
        store := store[k := Entry(v.value, Some(now + ttl as real))];
      }
    }

    method PublishTo(channel: string, message: string)
      modifies this`subs
      ensures subs == Publish(old(subs), channel, message)
      ensures forall id :: id in subs <==> id in old(subs)
      ensures forall id :: id in subs ==>
                subs[id].messages == old(subs)[id].messages + if old(subs)[id].channel == channel then [message] else []
    {
      subs := Publish(subs, channel, message);
    }

    method Subscribe(id: nat, channel: string)
      modifies this`subs
      ensures subs == old(subs)[id := Subscription(channel, false, [])]
    {
      subs := subs[id := Subscription(channel, false, [])];
    }

    method Unsubscribe(id: nat)
      modifies this`subs
      ensures subs == old(subs) - {id}
    {
      subs := subs - {id};
    }
  }
}
