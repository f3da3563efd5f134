/**
 * Per-restaurant update flags (redis_funcs.py), kept in Redis under the key
 * "update_flag:" followed by the restaurant id. `set_update_flag` sets a
 * flag; `check_for_updates` consumes it with a test-and-clear that reports
 * whether it was set.
 *
 * The Redis server is a key space mapping string keys to byte strings, held
 * by the client object that every call goes through.
 */
module UpdateFlags {
  import opened Wrappers

  newtype byte = x: int | 0 <= x < 256

  /** The Redis key space. */
  type Store = map<string, seq<byte>>

  const Prefix: string := "update_flag:"

  /** b"1": the UTF-8 encoding of the string "1" that marks a pending update. */
  const FlagOn: seq<byte> := [0x31]

  /** The key of a restaurant's flag: every flag key lies in the "update_flag:" namespace. */
  function FlagKey(restaurantId: string): (k: string)
    ensures |k| == |Prefix| + |restaurantId|
    ensures k[..|Prefix|] == Prefix
  {
    Prefix + restaurantId
  }

  /** Different restaurants have different flag keys. */
  lemma FlagKeyInjective(a: string, b: string)
    requires FlagKey(a) == FlagKey(b)
    ensures a == b
  {
    assert FlagKey(a)[|Prefix|..] == a;
    assert FlagKey(b)[|Prefix|..] == b;
  }

  /** The stored value reads exactly b"1". */
  predicate Pending(s: Store, restaurantId: string) {
    FlagKey(restaurantId) in s && s[FlagKey(restaurantId)] == FlagOn
  }

  /** The key space after `set_update_flag(restaurantId)`. */
  function SetFlag(s: Store, restaurantId: string): (s': Store)
    ensures Pending(s', restaurantId)
    ensures s'.Keys == s.Keys + {FlagKey(restaurantId)}
    ensures forall k :: k in s && k != FlagKey(restaurantId) ==> s'[k] == s[k]
  {
    s[FlagKey(restaurantId) := FlagOn]
  }

  /**
   * The key space after `check_for_updates(restaurantId)`: the flag's key is
   * gone if it held b"1", and nothing else changes. Any other value stays.
   */
  function ClearFlag(s: Store, restaurantId: string): (s': Store)
    ensures !Pending(s', restaurantId)
    ensures s'.Keys == if Pending(s, restaurantId) then s.Keys - {FlagKey(restaurantId)} else s.Keys
    ensures forall k :: k in s' ==> s'[k] == s[k]
  {
    if Pending(s, restaurantId) then s - {FlagKey(restaurantId)} else s
  }

  /** The Redis client: the key space and the three commands the flags use. */
  class RedisClient {
    var store: Store

    /** A client of a server that already holds the key space `keys`. */
    constructor (keys: Store)
      ensures store == keys
    {
      store := keys;
    }

    /** SET key value. */
    method Set(key: string, value: seq<byte>)
      modifies this
      ensures store == old(store)[key := value]
    {
      store := store[key := value];
    }

    /** GET key: the stored bytes, or nil. */
    method Get(key: string) returns (value: Option<seq<byte>>)
      ensures value.Some? <==> key in store
      ensures value.Some? ==> value.value == store[key]
    {
      value := if key in store then Some(store[key]) else None;
    }

    /** DEL key: the number of keys removed. */
    method Delete(key: string) returns (removed: nat)
      modifies this
      ensures store == old(store) - {key}
      ensures removed == if key in old(store) then 1 else 0
    {
      removed := if key in store then 1 else 0;
      store := store - {key};
    }
  }

  /** `set_update_flag(restaurant_id)`. */
  method SetUpdateFlag(client: RedisClient, restaurantId: string)
    modifies client
    ensures client.store == SetFlag(old(client.store), restaurantId)
  {
    client.Set(FlagKey(restaurantId), FlagOn);
  }

  /** `check_for_updates(restaurant_id)`: GET, and DEL only if the value was b"1". */
  method CheckForUpdates(client: RedisClient, restaurantId: string) returns (updated: bool)
    modifies client
    ensures updated == Pending(old(client.store), restaurantId)
    ensures client.store == ClearFlag(old(client.store), restaurantId)
  {
    var value := client.Get(FlagKey(restaurantId));
    if value == Some(FlagOn) {
      var _ := client.Delete(FlagKey(restaurantId));
      return true;
    }
    return false;
  }

  /** Setting a flag twice leaves the same key space as setting it once. */
  lemma SetFlagIdempotent(s: Store, restaurantId: string)
    ensures SetFlag(SetFlag(s, restaurantId), restaurantId) == SetFlag(s, restaurantId)
  {
  }

  /** A set flag is reported by the next check, which removes its key and nothing else. */
  lemma SetThenCheck(s: Store, restaurantId: string)
    ensures Pending(SetFlag(s, restaurantId), restaurantId)
    ensures ClearFlag(SetFlag(s, restaurantId), restaurantId) == s - {FlagKey(restaurantId)}
  {
  }

  /** A check that finds nothing changes nothing, so an immediately repeated check reports false. */
  lemma CheckTwice(s: Store, restaurantId: string)
    ensures !Pending(ClearFlag(s, restaurantId), restaurantId)
    ensures ClearFlag(ClearFlag(s, restaurantId), restaurantId) == ClearFlag(s, restaurantId)
  {
  }

  /** A flag key holding a value other than b"1" is reported false and kept. */
  lemma OtherValueKept(s: Store, restaurantId: string)
    requires FlagKey(restaurantId) in s && s[FlagKey(restaurantId)] != FlagOn
    ensures !Pending(s, restaurantId)
    ensures ClearFlag(s, restaurantId) == s
  {
  }

  /**
   * Flags are independent: setting or checking restaurant `a`'s flag does not
   * change what is stored under restaurant `b`'s key, so it does not change
   * whether `b` has a pending update.
   */
  lemma FlagsIndependent(s: Store, a: string, b: string)
    requires a != b
    ensures FlagKey(b) in SetFlag(s, a) <==> FlagKey(b) in s
    ensures FlagKey(b) in ClearFlag(s, a) <==> FlagKey(b) in s
    ensures FlagKey(b) in s ==> SetFlag(s, a)[FlagKey(b)] == s[FlagKey(b)] == ClearFlag(s, a)[FlagKey(b)]
    ensures Pending(SetFlag(s, a), b) == Pending(s, b) == Pending(ClearFlag(s, a), b)
  {
    if FlagKey(a) == FlagKey(b) {
      FlagKeyInjective(a, b);
    }
  }

  /**
   * On a server with no keys: a set flag is seen once, a second check sees
   * nothing, and another restaurant's flag was never set.
   */
  method FlagScenario(a: string, b: string) returns (first: bool, second: bool, other: bool)
    requires a != b
    ensures first && !second && !other
  {
    var client := new RedisClient(map[]);
    SetUpdateFlag(client, a);
    first := CheckForUpdates(client, a);
    second := CheckForUpdates(client, a);
    other := CheckForUpdates(client, b);
  }

  /** One call against the key space: `set_update_flag` or `check_for_updates`. */
  datatype Call = SetUpdate(restaurantId: string) | CheckUpdate(restaurantId: string)

  /** The key space after one call. */
  function Step(s: Store, c: Call): (s': Store) {
    match c
    case SetUpdate(id) => SetFlag(s, id)
    case CheckUpdate(id) => ClearFlag(s, id)
  }

  /** The key space after a sequence of calls, made one after another. */
  function Replay(s: Store, calls: seq<Call>): (s': Store)
    decreases |calls|
  {
    if calls == [] then s else Replay(Step(s, calls[0]), calls[1..])
  }

  /** How many of the calls set `restaurantId`'s flag. */
  function Sets(calls: seq<Call>, restaurantId: string): (n: nat)
    decreases |calls|
  {
    if calls == [] then 0
    else (if calls[0] == SetUpdate(restaurantId) then 1 else 0) + Sets(calls[1..], restaurantId)
  }

  /** How many checks of `restaurantId` report true when the calls are replayed from `s`. */
  function Reported(s: Store, calls: seq<Call>, restaurantId: string): (n: nat)
    decreases |calls|
  {
    if calls == [] then 0
    else (if calls[0] == CheckUpdate(restaurantId) && Pending(s, restaurantId) then 1 else 0)
         + Reported(Step(s, calls[0]), calls[1..], restaurantId)
  }

  /** One for true, zero for false. */
  function Count(b: bool): (n: nat) {
    if b then 1 else 0
  }

  /**
   * Each set is consumed at most once: over any sequence of calls, the
   * checks that report true for a restaurant, plus one if its flag is still
   * pending at the end, never exceed the sets of that flag plus one if it
   * was pending at the start. Sets that no check separates coalesce.
   */
  lemma {:induction false} ConsumedAtMostOnce(s: Store, calls: seq<Call>, restaurantId: string)
    ensures Reported(s, calls, restaurantId) + Count(Pending(Replay(s, calls), restaurantId))
            <= Sets(calls, restaurantId) + Count(Pending(s, restaurantId))
    decreases |calls|
  {
    if calls != [] {
      ConsumedAtMostOnce(Step(s, calls[0]), calls[1..], restaurantId);
      if calls[0].restaurantId != restaurantId {
        FlagsIndependent(s, calls[0].restaurantId, restaurantId);
      }
    }
  }

  /**
   * No set is lost: if the flag was pending at the start or is set along the
   * way, some check reports it or it is still pending at the end.
   */
  lemma {:induction false} NoUpdateLost(s: Store, calls: seq<Call>, restaurantId: string)
    requires Pending(s, restaurantId) || Sets(calls, restaurantId) > 0
    ensures Reported(s, calls, restaurantId) + Count(Pending(Replay(s, calls), restaurantId)) >= 1
    decreases |calls|
  {
    if calls != [] {
      var c := calls[0];
      if c.restaurantId != restaurantId {
        FlagsIndependent(s, c.restaurantId, restaurantId);
        NoUpdateLost(Step(s, c), calls[1..], restaurantId);
      } else if c.SetUpdate? {
        NoUpdateLost(Step(s, c), calls[1..], restaurantId);
      } else if !Pending(s, restaurantId) {
        NoUpdateLost(Step(s, c), calls[1..], restaurantId);
      }
    }
  }
}
