/** The two scripts of internal/cache/redis.go on the keys of one Redis server.

    Of the server it is assumed that a key with a deadline is gone once the clock, in
    milliseconds, is past the deadline; that GET, PTTL, SET, PEXPIRE and INCR act as
    documented; and that a script runs alone. */
module Redis {
  import opened Wrappers
  import opened Decimal

  /** In nanoseconds, the unit of the processes' clocks. */
  const MILLISECOND := 1_000_000

  datatype Entry = Entry(value: string, deadline: Option<int>)

  predicate Live(e: Entry, now: int) {
    e.deadline.None? || now <= e.deadline.value
  }

  /** PTTL of a live key; -1 when it never expires. */
  function Remaining(e: Entry, now: int): int {
    if e.deadline.None? then -1 else if e.deadline.value >= now then e.deadline.value - now else 0
  }

  function Lookup<K>(entries: map<K, Entry>, key: K, now: int): Option<Entry> {
    if key in entries && Live(entries[key], now) then Some(entries[key]) else None
  }

  datatype RedisError = NotANumeral | InvalidExpire

  /** What the set-max script leaves under the key, given what it finds there. */
  function MaxEntry(current: Option<Entry>, candidate: string, ttl: int, now: int): Result<Entry, RedisError> {
    match current
    case None => if ttl <= 0 then Err(InvalidExpire) else Ok(Entry(candidate, Some(now + ttl)))
    case Some(e) =>
      var left := Remaining(e, now);
      if !IsNumeral(e.value) then Err(NotANumeral)
      else if LengthThenText(e.value, candidate) then
        Ok(if 0 <= left < ttl then e.(deadline := Some(now + ttl)) else e)
      else if left == -1 then Ok(Entry(candidate, None))
      else if left <= 0 && ttl <= 0 then Err(InvalidExpire)
      else Ok(Entry(candidate, Some(now + if left > ttl then left else ttl)))
  }

  /** What the increment script leaves under the key. A PEXPIRE of nothing deletes the key. */
  function IncrementedEntry(current: Option<Entry>, ttl: int, now: int): Result<Option<Entry>, RedisError> {
    match current
    case None => Ok(if ttl <= 0 then None else Some(Entry(Numeral(1), Some(now + ttl))))
    case Some(e) =>
      if !IsNumeral(e.value) then Err(NotANumeral)
      else
        var count := Value(e.value) + 1;
        Ok(if count == 1 then (if ttl <= 0 then None else Some(Entry(Numeral(1), Some(now + ttl))))
           else Some(e.(value := Numeral(count))))
  }

  class Server<K(==)> {
    var now: int
    var entries: map<K, Entry>

    constructor (now: int)
      ensures this.now == now && entries == map[]
    {
      this.now := now;
      entries := map[];
    }

    /** Time passes; the server drops expired keys when it likes. */
    method Tick(elapsed: nat, dropped: set<K>)
      modifies this
      ensures now == old(now) + elapsed
      ensures forall key :: Lookup(entries, key, now) == Lookup(old(entries), key, now)
    {
      now := now + elapsed;
      entries := map k | k in entries && (Live(entries[k], now) || k !in dropped) :: entries[k];
    }

    method Get(key: K) returns (value: Option<string>)
      ensures value == (var e := Lookup(entries, key, now); if e.Some? then Some(e.value.value) else None)
    {
      if key in entries && Live(entries[key], now) {
        value := Some(entries[key].value);
      } else {
        value := None;
      }
    }

    method PTTL(key: K) returns (ttl: int)
      requires key in entries && Live(entries[key], now)
      ensures ttl == Remaining(entries[key], now)
    {
      var e := entries[key];
      if e.deadline.None? {
        ttl := -1;
      } else {
        ttl := e.deadline.value - now;
      }
    }

    method SetMaxInt64(key: K, value: int, ttl: int) returns (error: Option<RedisError>)
      modifies this`entries
      ensures var r := MaxEntry(Lookup(old(entries), key, now), Format(value), ttl, now);
              match r
              case Ok(e) => error.None? && entries == old(entries)[key := e]
              case Err(e) => error == Some(e) && entries == old(entries)
    {
      hide Format, TextAtLeast;
      var candidate := Format(value);
      var requestedTTL := ttl;
      var current := Get(key);
      error := None;
      if current.Some? {
        if !IsNumeral(current.value) {
          return Some(NotANumeral);
        }
        var currentTTL := PTTL(key);
        var currentIsGreater := |current.value| > |candidate| ||
                                (|current.value| == |candidate| && TextAtLeast(current.value, candidate));
        if currentIsGreater {
          if currentTTL >= 0 && currentTTL < requestedTTL {
            entries := entries[key := entries[key].(deadline := Some(now + requestedTTL))];
          }
          return;
        }
        if currentTTL == -1 {
          entries := entries[key := Entry(candidate, None)];
          return;
        }
        if currentTTL > requestedTTL {
          requestedTTL := currentTTL;
        }
      }
      if requestedTTL <= 0 {
        return Some(InvalidExpire);
      }
      entries := entries[key := Entry(candidate, Some(now + requestedTTL))];
    }

    method Increment(key: K, ttl: int) returns (count: nat, remaining: int, error: Option<RedisError>)
      modifies this`entries
      ensures var current := Lookup(old(entries), key, now);
              match IncrementedEntry(current, ttl, now)
              case Err(e) => error == Some(e) && entries == old(entries)
              case Ok(next) =>
                && error.None?
                && entries == (if next.Some? then old(entries)[key := next.value] else old(entries) - {key})
                && count == (if current.Some? then Value(current.value.value) + 1 else 1)
                && remaining == (if next.Some? then Max0(Remaining(next.value, now)) else 0)
    {
      hide Value, Numeral;
      count, remaining, error := 0, 0, None;
      var current := Get(key);
      if current.None? {
        entries := entries[key := Entry(Numeral(1), None)];
        count := 1;
      } else if !IsNumeral(current.value) {
        return 0, 0, Some(NotANumeral);
      } else {
        count := Value(current.value) + 1;
        entries := entries[key := entries[key].(value := Numeral(count))];
      }
      if count == 1 {
        if ttl <= 0 {
          entries := entries - {key};
          return;
        }
        entries := entries[key := entries[key].(deadline := Some(now + ttl))];
      }
      remaining := PTTL(key);
      if remaining < 0 {
        remaining := 0;
      }
    }
  }

  function Max0(x: int): int { if x < 0 then 0 else x }

  /** The stored value is the greater of the two, and neither time to live is cut short. */
  lemma MaxEntryIsMax(current: Option<Entry>, value: nat, ttl: int, now: int)
    requires ttl > 0
    requires current.Some? ==> Live(current.value, now) && IsCanonical(current.value.value)
    ensures var r := MaxEntry(current, Format(value), ttl, now);
            && r.Ok? && Live(r.value, now + ttl)
            && (current.None? ==> r.value.value == Numeral(value))
            && (current.Some? ==>
                  var was := Value(current.value.value);
                  && r.value.value == Numeral(if was >= value then was else value)
                  && (forall at :: Live(current.value, at) ==> Live(r.value, at)))
  {
    if current.Some? {
      LengthThenTextIsOrder(Value(current.value.value), value);
    }
  }
}
