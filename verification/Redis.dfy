/**
 The few Redis commands the rate limiter uses, over one database of expiring integer keys.

 Time is Redis's own clock in milliseconds.  A key can still be read in the millisecond of its
 expiry time and not after (Redis compares `now > when`).  An expired key is only dropped when it
 is next written; a reader cannot tell it from an absent one.
 */
module Redis {
  import opened Wrappers

  datatype Entry = Entry(value: int, expiresAt: Option<int>)

  type Keys = map<string, Entry>

  predicate Live(keys: Keys, key: string, at: int)
  {
    key in keys && (keys[key].expiresAt.Some? ==> at <= keys[key].expiresAt.value)
  }

  function Get(keys: Keys, key: string, at: int): Option<int>
  {
    if Live(keys, key, at) then Some(keys[key].value) else None
  }

  /** -2 for an absent key, -1 for a key without an expiry. */
  function Pttl(keys: Keys, key: string, at: int): int
  {
    if !Live(keys, key, at) then -2
    else match keys[key].expiresAt
      case None => -1
      case Some(when) => when - at
  }

  function Incr(keys: Keys, key: string, at: int): Keys
  {
    if Live(keys, key, at) then keys[key := keys[key].(value := keys[key].value + 1)]
    else keys[key := Entry(1, None)]
  }

  function Expire(keys: Keys, key: string, seconds: int, at: int): Keys
  {
    if Live(keys, key, at) then keys[key := keys[key].(expiresAt := Some(at + seconds * 1000))] else keys
  }

  function SetPx(keys: Keys, key: string, value: int, ms: int, at: int): Keys
  {
    keys[key := Entry(value, Some(at + ms))]
  }

  class Server {
    var keys: Keys
    var clock: int

    constructor ()
      ensures keys == map[] && clock == 0
    {
      keys, clock := map[], 0;
    }

    method GetKey(key: string) returns (value: Option<int>)
      ensures value == Get(keys, key, clock)
    {
      value := None;
      if Live(keys, key, clock) {
        value := Some(keys[key].value);
      }
    }

    method PttlKey(key: string) returns (ms: int)
      ensures ms == Pttl(keys, key, clock)
    {
      ms := Pttl(keys, key, clock);
    }

    method IncrKey(key: string)
      modifies this`keys
      ensures keys == Incr(old(keys), key, clock)
    {
      var current := GetKey(key);
      if current.Some? {
        keys := keys[key := keys[key].(value := current.value + 1)];
      } else {
        keys := keys[key := Entry(1, None)];
      }
    }

    method ExpireKey(key: string, seconds: int)
      modifies this`keys
      ensures keys == Expire(old(keys), key, seconds, clock)
    {
      if Live(keys, key, clock) {
        keys := keys[key := keys[key].(expiresAt := Some(clock + seconds * 1000))];
      }
    }

    method SetKeyPx(key: string, value: int, ms: int)
      modifies this`keys
      ensures keys == SetPx(old(keys), key, value, ms, clock)
    {
      keys := keys[key := Entry(value, Some(clock + ms))];
    }
  }
}
