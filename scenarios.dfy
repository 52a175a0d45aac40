/** Clients of onRequest, on a fresh store and on any store: what a caller can conclude from
    the contracts alone about POSTs followed by a GET. */
module Scenarios {
  import opened Wrappers
  import opened Json
  import opened EntryKeys
  import opened KvStore
  import opened Listing
  import opened Posts

  /** An empty store has no survivors and nothing that throws. */
  lemma NothingSurvives<J>(m: map<string, string>, unreadable: map<string, string>, parse: string -> Result<J>)
    requires m == map[]
    ensures Listable(m) && !SomeThrows(m, unreadable, parse)
    ensures forall x :: Survivors(m, unreadable, parse, x) == {}
  {
  }

  /** A complete listing of an empty store is empty. */
  lemma NothingListed<J(!new)>(listed: seq<Entry<J>>, m: map<string, string>,
                               unreadable: map<string, string>, parse: string -> Result<J>)
    requires m == map[] && Complete(listed, m, unreadable, parse)
    ensures listed == []
  {
    NothingSurvives(m, unreadable, parse);
    assert multiset(listed) == multiset{} by {
      forall x ensures multiset(listed)[x] == 0 {
      }
    }
    assert |listed| == |multiset(listed)|;
  }

  /** The store a POST of body at time now leaves behind when it started empty. */
  lemma OnePosted<J>(parse: string -> Result<J>, now: nat, body: string)
    requires body != "" && parse(body).Success?
    ensures Listable(map[EntryKey(now) := body])
    ensures !SomeThrows(map[EntryKey(now) := body], map[], parse)
    ensures forall x :: Survivors(map[EntryKey(now) := body], map[], parse, x) ==
                        if x == Entry(now, parse(body).value) then {EntryKey(now)} else {}
  {
    KeyRoundTrip(now);
    var m := map[EntryKey(now) := body];
    forall x ensures Survivors(m, map[], parse, x) ==
                     if x == Entry(now, parse(body).value) then {EntryKey(now)} else {} {
    }
  }

  /** A complete listing of that store is its one entry. */
  lemma OneListed<J(!new)>(listed: seq<Entry<J>>, parse: string -> Result<J>, now: nat, body: string)
    requires body != "" && parse(body).Success?
    requires Listable(map[EntryKey(now) := body])
    requires Complete(listed, map[EntryKey(now) := body], map[], parse)
    ensures listed == [Entry(now, parse(body).value)]
  {
    var e := Entry(now, parse(body).value);
    OnePosted(parse, now, body);
    assert multiset(listed) == multiset{e} by {
      forall x ensures multiset(listed)[x] == multiset{e}[x] {
      }
    }
    assert |listed| == 1 && listed[0] in multiset(listed);
  }

  /** The store two POSTs at times t1 < t2 leave behind when it started empty. */
  lemma TwoPosted<J>(parse: string -> Result<J>, t1: nat, first: string, t2: nat, second: string)
    requires first != "" && parse(first).Success?
    requires second != "" && parse(second).Success?
    requires t1 < t2
    ensures Listable(map[EntryKey(t1) := first, EntryKey(t2) := second])
    ensures !SomeThrows(map[EntryKey(t1) := first, EntryKey(t2) := second], map[], parse)
    ensures forall x :: Survivors(map[EntryKey(t1) := first, EntryKey(t2) := second], map[], parse, x) ==
                        if x == Entry(t1, parse(first).value) then {EntryKey(t1)}
                        else if x == Entry(t2, parse(second).value) then {EntryKey(t2)}
                        else {}
  {
    KeyRoundTrip(t1);
    KeyRoundTrip(t2);
    EntryKeyInjective(t1, t2);
    var m := map[EntryKey(t1) := first, EntryKey(t2) := second];
    var e1, e2 := Entry(t1, parse(first).value), Entry(t2, parse(second).value);
    assert StepFor(m, map[], EntryKey(t1), parse) == Keep(e1);
    assert StepFor(m, map[], EntryKey(t2), parse) == Keep(e2);
    forall x ensures Survivors(m, map[], parse, x) ==
                     if x == e1 then {EntryKey(t1)} else if x == e2 then {EntryKey(t2)} else {} {
    }
  }

  /** A complete newest-first listing of that store puts the later body first. */
  lemma TwoListed<J(!new)>(listed: seq<Entry<J>>, parse: string -> Result<J>,
                           t1: nat, first: string, t2: nat, second: string)
    requires first != "" && parse(first).Success?
    requires second != "" && parse(second).Success?
    requires t1 < t2
    requires Listable(map[EntryKey(t1) := first, EntryKey(t2) := second])
    requires Complete(listed, map[EntryKey(t1) := first, EntryKey(t2) := second], map[], parse)
    requires SortedNewestFirst(listed)
    ensures listed == [Entry(t2, parse(second).value), Entry(t1, parse(first).value)]
  {
    var e1, e2 := Entry(t1, parse(first).value), Entry(t2, parse(second).value);
    TwoPosted(parse, t1, first, t2, second);
    assert multiset(listed) == multiset{e2, e1} by {
      forall x ensures multiset(listed)[x] == multiset{e2, e1}[x] {
      }
    }
    NewerFirst(listed, e1, e2);
  }

  /** The only newest-first order of two entries of different times puts the newer first. */
  lemma NewerFirst<J>(listed: seq<Entry<J>>, older: Entry<J>, newer: Entry<J>)
    requires multiset(listed) == multiset{newer, older}
    requires SortedNewestFirst(listed) && older.timestamp < newer.timestamp
    ensures listed == [newer, older]
  {
    assert |listed| == 2;
    assert listed[0] in multiset(listed) && listed[1] in multiset(listed);
    assert multiset(listed) == multiset{listed[0], listed[1]} by {
      assert listed == [listed[0], listed[1]];
    }
  }

  /** Whatever else a store holds, a complete listing taken after a POST holds the posted
      body, stamped with the time of the POST, unless that key cannot be read. */
  lemma PostedIsListed<J(!new)>(listed: seq<Entry<J>>, m: map<string, string>, unreadable: map<string, string>,
                                parse: string -> Result<J>, now: nat, body: string)
    requires Listable(m[EntryKey(now) := body])
    requires body != "" && parse(body).Success? && EntryKey(now) !in unreadable
    requires Complete(listed, m[EntryKey(now) := body], unreadable, parse)
    ensures Entry(now, parse(body).value) in listed
  {
    var posted, e := m[EntryKey(now) := body], Entry(now, parse(body).value);
    KeyRoundTrip(now);
    assert EntryKey(now) in Survivors(posted, unreadable, parse, e);
    assert multiset(listed)[e] > 0;
  }

  /** On any store whose new key is readable, a POST followed by a GET that succeeds lists
      the posted body with the time of the POST. */
  method PostThenListAny<J(!new)>(store: Store, codec: Codec<J>, body: string, now: nat, later: nat)
    returns (posted: Response, got: Response, ghost listed: seq<Entry<J>>)
    requires Listable(store.entries) && store.outage.None? && EntryKey(now) !in store.unreadable
    requires |body| <= MaxSize && body != "" && codec.parse(body).Success?
    modifies store
    ensures posted == Uploaded
    ensures got.status == 200 ==> got == ListResponse(codec, listed) && Entry(now, codec.parse(body).value) in listed
  {
    ghost var m := store.entries;
    posted, listed := OnRequest(store, Request("POST", body), now, codec);
    assert store.entries == m[EntryKey(now) := body];
    got, listed := OnRequest(store, Request("GET", ""), later, codec);
    if got.status == 200 {
      PostedIsListed(listed, m, store.unreadable, codec.parse, now, body);
    }
  }

  /** A body posted to an empty store is then the one entry GET lists, stamped with the time
      of the POST. */
  method PostThenList<J(!new)>(codec: Codec<J>, body: string, now: nat, later: nat)
    returns (posted: Response, got: Response)
    requires |body| <= MaxSize && body != "" && codec.parse(body).Success?
    ensures posted == Uploaded
    ensures got == ListResponse(codec, [Entry(now, codec.parse(body).value)])
  {
    var store := new Store();
    ghost var listed: seq<Entry<J>>;
    posted, listed := OnRequest(store, Request("POST", body), now, codec);
    assert store.entries == map[EntryKey(now) := body];
    assert store.outage == None && store.unreadable == map[];
    OnePosted(codec.parse, now, body);
    got, listed := OnRequest(store, Request("GET", ""), later, codec);
    OneListed(listed, codec.parse, now, body);
  }

  /** Two bodies posted one after the other are listed newest first. */
  method TwoPostsThenList<J(!new)>(codec: Codec<J>, first: string, second: string, t1: nat, t2: nat, later: nat)
    returns (got: Response)
    requires |first| <= MaxSize && first != "" && codec.parse(first).Success?
    requires |second| <= MaxSize && second != "" && codec.parse(second).Success?
    requires t1 < t2
    ensures got == ListResponse(codec, [Entry(t2, codec.parse(second).value), Entry(t1, codec.parse(first).value)])
  {
    var store := new Store();
    ghost var listed: seq<Entry<J>>;
    var posted;
    posted, listed := OnRequest(store, Request("POST", first), t1, codec);
    assert store.entries == map[EntryKey(t1) := first];
    assert store.outage == None && store.unreadable == map[];
    posted, listed := OnRequest(store, Request("POST", second), t2, codec);
    assert store.entries == map[EntryKey(t1) := first, EntryKey(t2) := second];
    assert store.outage == None && store.unreadable == map[];
    TwoPosted(codec.parse, t1, first, t2, second);
    got, listed := OnRequest(store, Request("GET", ""), later, codec);
    TwoListed(listed, codec.parse, t1, first, t2, second);
  }

  /** An oversized POST is refused and leaves nothing for GET to list. */
  method OversizeThenList<J(!new)>(codec: Codec<J>, body: string, now: nat, later: nat)
    returns (posted: Response, got: Response)
    requires |body| > MaxSize
    ensures posted == TooLarge
    ensures got == ListResponse(codec, [])
  {
    var store := new Store();
    ghost var listed: seq<Entry<J>>;
    posted, listed := OnRequest(store, Request("POST", body), now, codec);
    assert store.entries == map[] && store.outage == None && store.unreadable == map[];
    NothingSurvives(store.entries, store.unreadable, codec.parse);
    got, listed := OnRequest(store, Request("GET", ""), later, codec);
    NothingListed(listed, store.entries, store.unreadable, codec.parse);
  }
}
