/** The request handler `onRequest` of functions/posts.js: POST stores the body under a
    time-stamped key, GET lists the stored entries newest first, OPTIONS answers a CORS
    preflight, every other method is refused, and anything thrown becomes a 500. */
module Posts {
  import opened Wrappers
  import opened Json
  import opened EntryKeys
  import opened KvStore
  import opened Listing

  /** The two parts of `context.request` the handler looks at. */
  datatype Request = Request(verb: string, body: string)

  datatype Body = Null | Text(text: string)

  /** A `Response`: status, the headers given to its constructor, body. */
  datatype Response = Response(status: nat, headers: map<string, string>, body: Body)

  /** The branch of onRequest a request method takes. */
  datatype Branch = Post | Get | Options | Other

  const MaxSize: nat := 5 * 1024 * 1024
  const Ttl: nat := 86400
  const ErrorPrefix: string := "Internal Server Error\n"

  const Cors: map<string, string> := map[
    "Access-Control-Allow-Origin" := "*",
    "Access-Control-Allow-Methods" := "POST, GET",
    "Access-Control-Allow-Headers" := "Content-Type"]

  const TooLarge: Response := Response(413, map[], Text("File is too large"))
  const Uploaded: Response :=
    Response(200, Cors["Content-Type" := "text/plain"], Text("Data uploaded successfully"))
  const Preflight: Response := Response(204, Cors, Null)
  const NotAllowed: Response :=
    Response(405, Cors["Content-Type" := "text/plain"], Text("Method Not Allowed"))

  /** The GET answer for the sorted entries: each parsed value printed again, and that array
      of strings printed as JSON. */
  function ListResponse<J>(codec: Codec<J>, listed: seq<Entry<J>>): Response {
    var values := seq(|listed|, i requires 0 <= i < |listed| => codec.stringify(listed[i].value));
    Response(200, Cors["Content-Type" := "application/json"], Text(ArrayText(values, codec.quote)))
  }

  /** The answer of the catch block to an error with this message. */
  function InternalError<J>(codec: Codec<J>, message: string): (r: Response)
    ensures r.status == 500 && !HasCors(r)
    ensures r.body.Text? && |ErrorPrefix| <= |r.body.text| && r.body.text[..|ErrorPrefix|] == ErrorPrefix
  {
    assert "Access-Control-Allow-Origin" in Cors;
    Response(500, map[], Text(ErrorPrefix + codec.quote(message)))
  }

  /** The response carries the three CORS headers with their values. */
  predicate HasCors(r: Response) {
    forall h :: h in Cors ==> h in r.headers && r.headers[h] == Cors[h]
  }

  /** The GET answer is a 200 with the CORS headers and a JSON content type, one printed
      value per entry; with nothing listed its body is `[]`. */
  lemma ListResponseShape<J>(codec: Codec<J>, listed: seq<Entry<J>>)
    ensures ListResponse(codec, listed).status == 200 && HasCors(ListResponse(codec, listed))
    ensures ListResponse(codec, listed).headers["Content-Type"] == "application/json"
    ensures listed == [] ==> ListResponse(codec, listed).body == Text("[]")
    ensures |listed| == 1 ==>
      ListResponse(codec, listed).body == Text("[" + codec.quote(codec.stringify(listed[0].value)) + "]")
  {
  }

  /** The method comparisons with `===`: exactly one branch per method string. */
  function Dispatch(verb: string): (b: Branch)
    ensures b == Post <==> verb == "POST"
    ensures b == Get <==> verb == "GET"
    ensures b == Options <==> verb == "OPTIONS"
    ensures b == Other <==> verb != "POST" && verb != "GET" && verb != "OPTIONS"
  {
    if verb == "POST" then Post
    else if verb == "GET" then Get
    else if verb == "OPTIONS" then Options
    else Other
  }

  /** A POST stores only keys the GET branch can read a timestamp from. */
  lemma PostKeepsListable(m: map<string, string>, now: nat, body: string)
    requires Listable(m)
    ensures Listable(m[EntryKey(now) := body])
  {
    KeyRoundTrip(now);
  }

  /** The POST branch: the size check, then one put; a failed put throws. */
  method Create(store: Store, body: string, now: nat) returns (r: Result<Response>)
    modifies store
    ensures |body| > MaxSize ==> r == Success(TooLarge) && unchanged(store)
    ensures |body| <= MaxSize && old(store.outage).Some? ==>
      r == Failure(old(store.outage).value) && unchanged(store)
    ensures |body| <= MaxSize && old(store.outage).None? ==>
      && r == Success(Uploaded)
      && store.entries == old(store.entries)[EntryKey(now) := body]
      && store.ttls == old(store.ttls)[EntryKey(now) := Ttl]
      && store.outage == old(store.outage) && store.unreadable == old(store.unreadable)
  {
    if |body| > MaxSize {
      return Success(TooLarge);
    }
    var key := EntryKey(now);
    var put := store.Put(key, body, Ttl);
    if put.Failure? {
      return Failure(put.message);
    }
    return Success(Uploaded);
  }

  /** The GET branch: list, fetch and parse every surviving entry, sort newest first, print.
      It only reads the store. */
  method List<J(!new)>(store: Store, codec: Codec<J>) returns (r: Result<Response>, ghost listed: seq<Entry<J>>)
    requires Listable(store.entries)
    ensures store.outage.Some? ==> r == Failure(store.outage.value)
    ensures store.outage.None? ==>
      (r.Failure? <==> SomeThrows(store.entries, store.unreadable, codec.parse))
    ensures store.outage.None? && r.Failure? ==>
      ThrowsWith(store.entries, store.unreadable, codec.parse, r.message)
    ensures r.Success? ==>
      && r.value == ListResponse(codec, listed)
      && SortedNewestFirst(listed)
      && Complete(listed, store.entries, store.unreadable, codec.parse)
  {
    listed := [];
    var keys := store.List();
    if keys.Failure? {
      return Failure(keys.message), [];
    }
    var names := keys.value;
    ghost var m, unreadable := store.entries, store.unreadable;
    forall k | k in names ensures TimestampOf(k).Some? {
      assert k in m;
    }
    var collected := CollectEntries(store, names, codec.parse);
    if collected.Failure? {
      CollectThrows(names, m, unreadable, codec.parse);
      return Failure(collected.message), [];
    }
    var entries := collected.value;
    CollectThrows(names, m, unreadable, codec.parse);
    CollectCounts(names, m, unreadable, codec.parse);

    var a := new Entry<J>[|entries|](i requires 0 <= i < |entries| => entries[i]);
    assert a[..] == entries;
    SortNewestFirst(a);
    var sorted := a[..];
    listed := sorted;
    forall e ensures multiset(listed)[e] == |Survivors(m, unreadable, codec.parse, e)| {
      assert KeptBy(names, m, unreadable, codec.parse, e) == Survivors(m, unreadable, codec.parse, e);
    }
    return Success(ListResponse(codec, sorted)), listed;
  }

  /** The loop over the listed keys (lines 31-37): fetch each value, skip the absent and the
      empty ones, and push the parsed rest with its key's timestamp; a throwing `get` or
      `JSON.parse` ends it. */
  method CollectEntries<J>(store: Store, names: seq<string>, parse: string -> Result<J>)
    returns (r: Result<seq<Entry<J>>>)
    requires Listable(store.entries) && store.outage.None?
    requires forall k :: k in names ==> TimestampOf(k).Some?
    ensures r == Collect(names, store.entries, store.unreadable, parse)
  {
    ghost var m, unreadable := store.entries, store.unreadable;
    var entries: seq<Entry<J>> := [];
    for i := 0 to |names|
      invariant Collect(names[..i], m, unreadable, parse) == Success(entries)
    {
      var name := names[i];
      var timestamp := TimestampOf(name).value;
      CollectExtend(names, i, m, unreadable, parse, entries);
      var json := store.Get(name);
      if json.Failure? {
        FailurePersists(names, i + 1, m, unreadable, parse);
        return Failure(json.message);
      }
      if json.value.Some? && json.value.value != "" {
        var parsed := parse(json.value.value);
        if parsed.Failure? {
          assert StepFor(m, unreadable, name, parse) == Throw(parsed.message);
          FailurePersists(names, i + 1, m, unreadable, parse);
          return Failure(parsed.message);
        }
        assert StepFor(m, unreadable, name, parse) == Keep(Entry(timestamp, parsed.value));
        entries := entries + [Entry(timestamp, parsed.value)];
      } else {
        assert StepFor(m, unreadable, name, parse) == Skip;
      }
    }
    assert names[..|names|] == names;
    return Success(entries);
  }

  /** `onRequest`: dispatch on the method, and answer anything thrown with a 500. */
  method OnRequest<J(!new)>(store: Store, request: Request, now: nat, codec: Codec<J>)
    returns (response: Response, ghost listed: seq<Entry<J>>)
    requires request.verb == "GET" ==> Listable(store.entries)
    modifies store
    ensures HasCors(response) <==> response.status in {200, 204, 405}
    ensures Listable(old(store.entries)) ==> Listable(store.entries)
    ensures request.verb != "POST" ==> unchanged(store)
    ensures request.verb == "POST" && |request.body| > MaxSize ==> response == TooLarge && unchanged(store)
    ensures request.verb == "POST" && |request.body| <= MaxSize && old(store.outage).Some? ==>
      response == InternalError(codec, old(store.outage).value) && unchanged(store)
    ensures request.verb == "POST" && |request.body| <= MaxSize && old(store.outage).None? ==>
      && response == Uploaded
      && store.entries == old(store.entries)[EntryKey(now) := request.body]
      && store.ttls == old(store.ttls)[EntryKey(now) := Ttl]
      && store.outage == old(store.outage) && store.unreadable == old(store.unreadable)
    ensures request.verb == "GET" ==>
      (response.status == 200 <==>
        store.outage.None? && !SomeThrows(store.entries, store.unreadable, codec.parse))
    ensures request.verb == "GET" && response.status == 200 ==>
      && response == ListResponse(codec, listed)
      && SortedNewestFirst(listed)
      && Complete(listed, store.entries, store.unreadable, codec.parse)
    ensures request.verb == "GET" && response.status != 200 ==>
      exists message :: response == InternalError(codec, message) &&
        (store.outage == Some(message) ||
         (store.outage.None? && ThrowsWith(store.entries, store.unreadable, codec.parse, message)))
    ensures request.verb == "OPTIONS" ==> response == Preflight
    ensures Dispatch(request.verb) == Other ==> response == NotAllowed
  {
    listed := [];
    var outcome: Result<Response>;
    match Dispatch(request.verb) {
      case Post =>
        outcome := Create(store, request.body, now);
        if |request.body| <= MaxSize && old(store.outage).None? && Listable(old(store.entries)) {
          PostKeepsListable(old(store.entries), now, request.body);
        }
      case Get =>
        outcome, listed := List(store, codec);
      case Options =>
        outcome := Success(Preflight);
      case Other =>
        outcome := Success(NotAllowed);
    }
    response := match outcome
      case Success(r) => r
      case Failure(message) => InternalError(codec, message);
    assert "Access-Control-Allow-Origin" in Cors;
  }
}
