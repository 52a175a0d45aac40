/** The key-value namespace bound as `context.env.KV`: the three calls the handler makes on it,
    `put` (functions/posts.js lines 12-14), `list` (line 28) and `get` (line 33). */
module KvStore {
  import opened Wrappers

  /** No value occurs twice in s. */
  ghost predicate Distinct<T>(s: seq<T>) {
    forall i, j :: 0 <= i < j < |s| ==> s[i] != s[j]
  }

  class Store {
    /** The live keys and their text values. */
    var entries: map<string, string>
    /** The `expirationTtl` given with the last put of each key; expiry itself is not modelled. */
    var ttls: map<string, nat>
    /** Some(message) while the store cannot be reached: every call throws with that message. */
    var outage: Option<string>
    /** Keys whose `get` throws, with the message of the error it throws. */
    var unreadable: map<string, string>

    constructor ()
      ensures entries == map[] && ttls == map[] && outage == None && unreadable == map[]
    {
      entries, ttls, outage, unreadable := map[], map[], None, map[];
    }

    /** Stores value under key, replacing any value already there. */
    method Put(key: string, value: string, ttl: nat) returns (r: Result<()>)
      modifies this
      ensures outage == old(outage) && unreadable == old(unreadable)
      ensures old(outage).Some? ==>
        r == Failure(old(outage).value) && unchanged(this)
      ensures old(outage).None? ==>
        r == Success(()) && entries == old(entries)[key := value] && ttls == old(ttls)[key := ttl]
    {
      if outage.Some? {
        return Failure(outage.value);
      }
      entries := entries[key := value];
      ttls := ttls[key := ttl];
      return Success(());
    }

    /** The value stored under key, or None (JavaScript's `null`) for a missing key. */
    method Get(key: string) returns (r: Result<Option<string>>)
      ensures outage.Some? ==> r == Failure(outage.value)
      ensures outage.None? && key in unreadable ==> r == Failure(unreadable[key])
      ensures outage.None? && key !in unreadable ==>
        r == Success(if key in entries then Some(entries[key]) else None)
    {
      if outage.Some? {
        return Failure(outage.value);
      }
      if key in unreadable {
        return Failure(unreadable[key]);
      }
      return Success(if key in entries then Some(entries[key]) else None);
    }

    /** Every live key exactly once, in an order the store chooses. */
    method List() returns (r: Result<seq<string>>)
      ensures r.Failure? <==> outage.Some?
      ensures outage.Some? ==> r == Failure(outage.value)
      ensures r.Success? ==> Distinct(r.value) && forall k :: k in r.value <==> k in entries
    {
      if outage.Some? {
        return Failure(outage.value);
      }
      var names: seq<string> := [];
      var rest := entries.Keys;
      while rest != {}
        invariant rest <= entries.Keys
        invariant Distinct(names)
        invariant forall k :: k in names <==> k in entries && k !in rest
        decreases rest
      {
        var k :| k in rest;
        names := names + [k];
        rest := rest - {k};
      }
      return Success(names);
    }
  }
}
