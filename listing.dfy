/** The GET branch's work on the listed keys (functions/posts.js lines 29-41): fetch each
    value, skip the absent and the empty ones, parse the rest paired with the key's timestamp,
    and sort the pairs newest first. */
module Listing {
  import opened Wrappers
  import opened EntryKeys
  import opened KvStore

  /** One pair `[timestamp, JSON.parse(json)]` of the `entries` array. */
  datatype Entry<J> = Entry(timestamp: nat, value: J)

  /** What one turn of the loop does with a listed key: skip it, keep an entry, or throw. */
  datatype Step<J> = Skip | Keep(entry: Entry<J>) | Throw(message: string)

  /** Every key has a timestamp this model can read (see EntryKeys.TimestampOf). */
  predicate Listable(m: map<string, string>) {
    forall k :: k in m ==> TimestampOf(k).Some?
  }

  /** One turn of the loop for the key k, on a reachable store with values m in which the
      keys of unreadable throw on `get`. `if (json)` lets through neither `null` nor "". */
  function StepFor<J>(m: map<string, string>, unreadable: map<string, string>, k: string,
                      parse: string -> Result<J>): Step<J>
    requires Listable(m)
  {
    if k in unreadable then Throw(unreadable[k])
    else if k !in m || m[k] == "" then Skip
    else match parse(m[k])
      case Failure(message) => Throw(message)
      case Success(v) => Keep(Entry(TimestampOf(k).value, v))
  }

  /** The loop over names: the entries it pushes, in order, or the first error thrown. */
  function Collect<J>(names: seq<string>, m: map<string, string>, unreadable: map<string, string>,
                      parse: string -> Result<J>): Result<seq<Entry<J>>>
    requires Listable(m)
  {
    if names == [] then Success([])
    else match Collect(names[..|names| - 1], m, unreadable, parse)
      case Failure(message) => Failure(message)
      case Success(es) =>
        match StepFor(m, unreadable, names[|names| - 1], parse)
        case Skip => Success(es)
        case Keep(e) => Success(es + [e])
        case Throw(message) => Failure(message)
  }

  /** A key throws exactly when it is unreadable or its non-empty value does not parse; it is
      skipped exactly when it is readable and its value is absent or empty; a kept entry
      carries the key's timestamp and the parsed value. */
  lemma StepForCases<J>(m: map<string, string>, unreadable: map<string, string>, k: string,
                        parse: string -> Result<J>)
    requires Listable(m)
    ensures StepFor(m, unreadable, k, parse).Throw? <==>
      k in unreadable || (k in m && m[k] != "" && parse(m[k]).Failure?)
    ensures StepFor(m, unreadable, k, parse).Skip? <==> k !in unreadable && (k !in m || m[k] == "")
    ensures StepFor(m, unreadable, k, parse).Keep? ==>
      && k in m && parse(m[k]).Success?
      && StepFor(m, unreadable, k, parse).entry == Entry(TimestampOf(k).value, parse(m[k]).value)
  {
  }

  /** The loop pushes at most one entry per listed key, and every entry it pushes is the one
      some listed key keeps. */
  lemma {:induction false} CollectListed<J>(names: seq<string>, m: map<string, string>,
                                            unreadable: map<string, string>, parse: string -> Result<J>)
    requires Listable(m)
    ensures Collect(names, m, unreadable, parse).Success? ==>
      |Collect(names, m, unreadable, parse).value| <= |names|
    ensures Collect(names, m, unreadable, parse).Success? ==>
      forall e :: e in Collect(names, m, unreadable, parse).value ==>
        exists k :: k in names && StepFor(m, unreadable, k, parse) == Keep(e)
    decreases |names|
  {
    if names != [] {
      var init, last := names[..|names| - 1], names[|names| - 1];
      CollectListed(init, m, unreadable, parse);
      assert forall k :: k in init ==> k in names;
    }
  }

  /** The keys of m whose turn of the loop keeps exactly the entry e. */
  ghost function Survivors<J>(m: map<string, string>, unreadable: map<string, string>,
                              parse: string -> Result<J>, e: Entry<J>): set<string>
    requires Listable(m)
  {
    set k | k in m && StepFor(m, unreadable, k, parse) == Keep(e)
  }

  /** Some key of m makes its turn of the loop throw. */
  ghost predicate SomeThrows<J>(m: map<string, string>, unreadable: map<string, string>,
                                parse: string -> Result<J>)
    requires Listable(m)
  {
    exists k :: k in m && StepFor(m, unreadable, k, parse).Throw?
  }

  /** Some key of m makes its turn of the loop throw with this message. */
  ghost predicate ThrowsWith<J>(m: map<string, string>, unreadable: map<string, string>,
                                parse: string -> Result<J>, message: string)
    requires Listable(m)
  {
    exists k :: k in m && StepFor(m, unreadable, k, parse) == Throw(message)
  }

  /** es holds the entry of every surviving key of m once, and nothing else. */
  ghost predicate Complete<J(!new)>(es: seq<Entry<J>>, m: map<string, string>,
                              unreadable: map<string, string>, parse: string -> Result<J>)
    requires Listable(m)
  {
    forall e :: multiset(es)[e] == |Survivors(m, unreadable, parse, e)|
  }

  predicate SortedNewestFirst<J>(es: seq<Entry<J>>) {
    forall i, j :: 0 <= i < j < |es| ==> es[i].timestamp >= es[j].timestamp
  }

  /** The loop throws exactly when some listed key throws, and then with the message of the
      first such key in listing order. */
  lemma {:induction false} CollectThrows<J>(names: seq<string>, m: map<string, string>,
                                            unreadable: map<string, string>, parse: string -> Result<J>)
    requires Listable(m)
    ensures Collect(names, m, unreadable, parse).Failure? <==>
            exists i :: 0 <= i < |names| && StepFor(m, unreadable, names[i], parse).Throw?
    ensures Collect(names, m, unreadable, parse).Failure? ==>
            exists i :: 0 <= i < |names| &&
              StepFor(m, unreadable, names[i], parse) == Throw(Collect(names, m, unreadable, parse).message) &&
              forall j :: 0 <= j < i ==> !StepFor(m, unreadable, names[j], parse).Throw?
  {
    if names != [] {
      var init := names[..|names| - 1];
      CollectThrows(init, m, unreadable, parse);
      assert forall i :: 0 <= i < |init| ==> init[i] == names[i];
    }
  }

  /** One more turn of the loop after a prefix that did not throw. */
  lemma CollectExtend<J>(names: seq<string>, i: nat, m: map<string, string>, unreadable: map<string, string>,
                         parse: string -> Result<J>, es: seq<Entry<J>>)
    requires Listable(m) && i < |names|
    requires Collect(names[..i], m, unreadable, parse) == Success(es)
    ensures Collect(names[..i + 1], m, unreadable, parse) ==
      match StepFor(m, unreadable, names[i], parse)
      case Skip => Success(es)
      case Keep(e) => Success(es + [e])
      case Throw(message) => Failure(message)
  {
    assert names[..i + 1][..i] == names[..i];
  }

  /** Once the loop has thrown on a prefix of the names, the rest of them change nothing. */
  lemma {:induction false} FailurePersists<J>(names: seq<string>, n: nat, m: map<string, string>,
                                              unreadable: map<string, string>, parse: string -> Result<J>)
    requires Listable(m) && n <= |names|
    requires Collect(names[..n], m, unreadable, parse).Failure?
    ensures Collect(names, m, unreadable, parse) == Collect(names[..n], m, unreadable, parse)
    decreases |names| - n
  {
    if n < |names| {
      assert names[..n + 1][..n] == names[..n];
      FailurePersists(names, n + 1, m, unreadable, parse);
    } else {
      assert names[..n] == names;
    }
  }

  /** The listed keys whose turn of the loop keeps exactly the entry e. */
  ghost function KeptBy<J>(names: seq<string>, m: map<string, string>, unreadable: map<string, string>,
                           parse: string -> Result<J>, e: Entry<J>): set<string>
    requires Listable(m)
  {
    set k | k in names && StepFor(m, unreadable, k, parse) == Keep(e)
  }

  /** Listing one more key, not listed before, adds it to the keys that keep its entry. */
  lemma KeptByLast<J>(init: seq<string>, last: string, m: map<string, string>,
                      unreadable: map<string, string>, parse: string -> Result<J>, e: Entry<J>)
    requires Listable(m) && last !in init
    ensures |KeptBy(init + [last], m, unreadable, parse, e)| ==
            |KeptBy(init, m, unreadable, parse, e)| + if StepFor(m, unreadable, last, parse) == Keep(e) then 1 else 0
  {
    var before, after := KeptBy(init, m, unreadable, parse, e), KeptBy(init + [last], m, unreadable, parse, e);
    assert forall k :: k in init + [last] <==> k in init || k == last;
    if StepFor(m, unreadable, last, parse) == Keep(e) {
      assert after == before + {last};
    } else {
      assert after == before;
    }
  }

  /** When the loop completes, each entry occurs as often as there are listed keys that keep it:
      with distinct names, every surviving key contributes its entry exactly once. */
  lemma {:induction false} CollectCounts<J>(names: seq<string>, m: map<string, string>,
                                            unreadable: map<string, string>, parse: string -> Result<J>)
    requires Listable(m) && Distinct(names)
    requires Collect(names, m, unreadable, parse).Success?
    ensures forall e :: multiset(Collect(names, m, unreadable, parse).value)[e] ==
                        |KeptBy(names, m, unreadable, parse, e)|
  {
    if names != [] {
      var init, last := names[..|names| - 1], names[|names| - 1];
      DistinctSplit(names);
      CollectCounts(init, m, unreadable, parse);
      var es := Collect(init, m, unreadable, parse).value;
      var step := StepFor(m, unreadable, last, parse);
      assert Collect(names, m, unreadable, parse).value == if step.Keep? then es + [step.entry] else es;
      assert names == init + [last];
      forall e
        ensures multiset(Collect(names, m, unreadable, parse).value)[e] ==
                |KeptBy(names, m, unreadable, parse, e)|
      {
        KeptByLast(init, last, m, unreadable, parse, e);
      }
    }
  }

  /** The last of distinct values does not occur before it, and the rest stay distinct. */
  lemma DistinctSplit<T>(s: seq<T>)
    requires Distinct(s) && s != []
    ensures Distinct(s[..|s| - 1]) && s[|s| - 1] !in s[..|s| - 1]
  {
    assert forall i :: 0 <= i < |s| - 1 ==> s[..|s| - 1][i] == s[i];
  }

  /** Sorts the entries newest first, in place, keeping every entry (JavaScript's
      `entries.sort((a, b) => b[0] - a[0])`, stable, by insertion). */
  method SortNewestFirst<J>(a: array<Entry<J>>)
    modifies a
    ensures SortedNewestFirst(a[..])
    ensures multiset(a[..]) == multiset(old(a[..]))
  {
    if a.Length == 0 {
      return;
    }
    var i := 1;
    while i < a.Length
      invariant 1 <= i <= a.Length
      invariant SortedNewestFirst(a[..i])
      invariant multiset(a[..]) == multiset(old(a[..]))
    {
      Sink(a, i);
      i := i + 1;
    }
    assert a[..a.Length] == a[..];
  }

  /** a[..i + 1] is newest first except for the entry at j, which is newer than every entry
      after it up to i: the state of insertion while a[j] moves left. */
  predicate Floating<J>(s: seq<Entry<J>>, i: nat, j: nat) {
    && j <= i < |s|
    && (forall p, q :: 0 <= p < q <= i && p != j && q != j ==> s[p].timestamp >= s[q].timestamp)
    && (forall q :: j < q <= i ==> s[j].timestamp > s[q].timestamp)
  }

  lemma SwapFloating<J>(s: seq<Entry<J>>, i: nat, j: nat)
    requires Floating(s, i, j) && 0 < j && s[j - 1].timestamp < s[j].timestamp
    ensures Floating(s[j - 1 := s[j]][j := s[j - 1]], i, j - 1)
    ensures multiset(s[j - 1 := s[j]][j := s[j - 1]]) == multiset(s)
  {
  }

  /** Swapping two neighbours inside the prefix s[..i + 1] keeps the prefix's entries and
      leaves everything after it alone. */
  lemma SwapPrefix<J>(s: seq<Entry<J>>, i: nat, j: nat)
    requires 0 < j <= i < |s|
    ensures multiset(s[j - 1 := s[j]][j := s[j - 1]][..i + 1]) == multiset(s[..i + 1])
    ensures s[j - 1 := s[j]][j := s[j - 1]][i + 1..] == s[i + 1..]
  {
    var t := s[j - 1 := s[j]][j := s[j - 1]];
    assert t[..i + 1] == s[..i + 1][j - 1 := s[j]][j := s[j - 1]];
  }

  lemma SettledSorted<J>(s: seq<Entry<J>>, i: nat, j: nat)
    requires Floating(s, i, j) && (j == 0 || s[j - 1].timestamp >= s[j].timestamp)
    ensures SortedNewestFirst(s[..i + 1])
  {
  }

  /** Moves a[i] left past the older entries before it, so that a[..i + 1] is sorted. */
  method Sink<J>(a: array<Entry<J>>, i: nat)
    requires i < a.Length
    requires SortedNewestFirst(a[..i])
    modifies a
    ensures SortedNewestFirst(a[..i + 1])
    ensures multiset(a[..i + 1]) == multiset(old(a[..i + 1]))
    ensures a[i + 1..] == old(a[i + 1..])
    ensures multiset(a[..]) == multiset(old(a[..]))
  {
    var j: nat := i;
    assert Floating(a[..], i, j);
    while j > 0 && a[j - 1].timestamp < a[j].timestamp
      invariant Floating(a[..], i, j)
      invariant multiset(a[..i + 1]) == multiset(old(a[..i + 1]))
      invariant a[i + 1..] == old(a[i + 1..])
      invariant multiset(a[..]) == multiset(old(a[..]))
    {
      SwapFloating(a[..], i, j);
      SwapPrefix(a[..], i, j);
      a[j - 1], a[j] := a[j], a[j - 1];
      j := j - 1;
    }
    SettledSorted(a[..], i, j);
  }
}
