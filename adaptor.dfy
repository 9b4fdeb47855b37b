/** `CloudflareKVAdaptor`: the storage adaptor that keeps switches in a Workers
    KV namespace, found or created by title on `init`. The requests it issues
    are recorded in the ghost `calls`; the answers to them are parameters
    (`Outcome`s, and a `Listing` for the pages of `listNamespaces`). */
module KVAdaptor {
  import opened Wrappers
  import opened StorageInterface
  import opened Backend
  import G = Gateway

  /** The error code Workers KV reports when a namespace title is already in use. */
  const NamespaceTitleInUse := 10014

  /** The answers to `listNamespaces` for pages 1, 2, ... in order. A page
      past the end is answered with a successful, empty page. */
  type Listing = seq<Outcome<seq<Namespace>>>

  const EmptyPage: Outcome<seq<Namespace>> :=
    Fulfilled(Response(true, "OK", "", Some(Envelope(None, Some([]), None))))

  function PageReply(listing: Listing, page: int): Outcome<seq<Namespace>>
  {
    if 1 <= page <= |listing| then listing[page - 1] else EmptyPage
  }

  /** The options `findNamespace` lists with: ascending by title, one page. */
  function SearchOptions(page: int): G.ListNamespacesOptions
  {
    G.ListNamespacesOptions(Some(G.Asc), Some(G.ByTitle), Some(page), None)
  }

  /** The list calls for pages `from`, `from + 1`, ..., `count` of them. */
  function ListCalls(from: int, count: nat): (cs: seq<G.Call>)
    ensures |cs| == count
    ensures forall i :: 0 <= i < count ==> cs[i] == G.ListNamespacesCall(SearchOptions(from + i))
  {
    if count == 0 then [] else ListCalls(from, count - 1) + [G.ListNamespacesCall(SearchOptions(from + count - 1))]
  }

  lemma ListCallsSnoc(from: int, count: nat)
    ensures ListCalls(from, count + 1) == ListCalls(from, count) + [G.ListNamespacesCall(SearchOptions(from + count))]
  {
  }

  /** The position of the first namespace with the given title, or the
      length of the list when there is none. */
  function FirstIndexWithTitle(list: seq<Namespace>, title: string): (i: nat)
    ensures i <= |list|
    ensures i < |list| ==> list[i].title == title
    ensures forall j :: 0 <= j < i ==> list[j].title != title
  {
    if list == [] then 0
    else if list[0].title == title then 0
    else
      var i := FirstIndexWithTitle(list[1..], title);
      assert forall j :: 1 <= j <= i ==> list[j] == list[1..][j - 1];
      i + 1
  }

  /** The first namespace with the given title, as `Array.prototype.find` returns it. */
  function FirstWithTitle(list: seq<Namespace>, title: string): (r: Option<Namespace>)
    ensures r.None? <==> forall i :: 0 <= i < |list| ==> list[i].title != title
    ensures r.Some? ==> r.value in list && r.value.title == title
    ensures r.Some? ==>
      exists i :: 0 <= i < |list| && list[i] == r.value && forall j :: 0 <= j < i ==> list[j].title != title
  {
    var i := FirstIndexWithTitle(list, title);
    if i < |list| then Some(list[i]) else None
  }

  /** The namespaces a successful listing carries: none when its body does not
      parse or has no `result`. */
  function PageNamespaces(resp: Response<seq<Namespace>>): seq<Namespace>
  {
    if resp.json.Some? && resp.json.value.result.Some? then resp.json.value.result.value else []
  }

  /** What `findNamespace` does with the answer for one page. */
  datatype PageStep = Hit(ns: Namespace) | NextPage | Stop(failure: Failure)

  function ScanPage(title: string, page: int, reply: Outcome<seq<Namespace>>): PageStep
  {
    match reply
    case Rejected(reason) => Stop(TransportFailed(reason))
    case Fulfilled(resp) =>
      if !resp.ok then Stop(ListFailed(resp.statusText, PayloadOf(resp)))
      else if PageNamespaces(resp) == [] then Stop(NoNamespacesInResponse)
      else match FirstWithTitle(PageNamespaces(resp), title)
        case Some(ns) => Hit(ns)
        case None =>
          if resp.json.value.resultInfo.Some? && page < resp.json.value.resultInfo.value.totalPages
          then NextPage
          else Stop(NamespaceNotFound(title))
  }

  /** The namespaces listed on page `q` (none outside the listing or on a rejected page). */
  function PageOf(listing: Listing, q: int): seq<Namespace>
  {
    if 1 <= q <= |listing| && listing[q - 1].Fulfilled? then PageNamespaces(listing[q - 1].response) else []
  }

  /** The search from `page` on: its outcome and the number of pages it lists. */
  function FindSpec(title: string, page: int, listing: Listing): (r: (Result<Namespace, Failure>, nat))
    requires page >= 1
    ensures r.1 >= 1
    decreases |listing| + 1 - page
  {
    match ScanPage(title, page, PageReply(listing, page))
    case Hit(ns) => (Ok(ns), 1)
    case Stop(f) => (Err(f), 1)
    case NextPage =>
      assert page <= |listing|;
      var next := FindSpec(title, page + 1, listing);
      (next.0, next.1 + 1)
  }

  /** The search lists at most one page past the end of the listing. */
  lemma {:induction false} FindSpecBound(title: string, page: int, listing: Listing)
    requires page >= 1
    ensures FindSpec(title, page, listing).1 <= if page <= |listing| then |listing| - page + 2 else 1
    decreases |listing| + 1 - page
  {
    FindSpecStep(title, page, listing);
    if ScanPage(title, page, PageReply(listing, page)).NextPage? {
      FindSpecBound(title, page + 1, listing);
    }
  }

  /** A namespace the search finds has the title asked for and is listed on
      the last page the search requested. */
  lemma {:induction false} FindSpecSound(title: string, page: int, listing: Listing)
    requires page >= 1
    ensures FindSpec(title, page, listing).0.Ok? ==>
      FindSpec(title, page, listing).0.value.title == title
      && FindSpec(title, page, listing).0.value in PageOf(listing, page + FindSpec(title, page, listing).1 - 1)
    decreases |listing| + 1 - page
  {
    FindSpecStep(title, page, listing);
    match ScanPage(title, page, PageReply(listing, page))
    case Hit(ns) =>
      assert PageReply(listing, page) != EmptyPage;
    case Stop(_) =>
    case NextPage =>
      FindSpecSound(title, page + 1, listing);
  }

  /** One step of the search: a hit or a stop ends it after one listing; a
      next page adds one listing to the search from the following page. */
  lemma FindSpecStep(title: string, p: int, listing: Listing)
    requires p >= 1
    ensures match ScanPage(title, p, PageReply(listing, p))
            case Hit(ns) => FindSpec(title, p, listing) == (Ok(ns), 1)
            case Stop(f) => FindSpec(title, p, listing) == (Err(f), 1)
            case NextPage =>
              p <= |listing|
              && FindSpec(title, p, listing) == (FindSpec(title, p + 1, listing).0, FindSpec(title, p + 1, listing).1 + 1)
  {
  }

  /** A page answered with a success status, a non-empty `result` and a
      `total_pages` of `total`. */
  predicate WellFormedPage(reply: Outcome<seq<Namespace>>, total: int)
  {
    && reply.Fulfilled? && reply.response.ok
    && reply.response.json.Some?
    && reply.response.json.value.result.Some?
    && reply.response.json.value.result.value != []
    && reply.response.json.value.resultInfo.Some?
    && reply.response.json.value.resultInfo.value.totalPages == total
  }

  /** Every page is well formed, with `total_pages` equal to the number of pages. */
  predicate WellFormedListing(listing: Listing)
  {
    forall q :: 0 <= q < |listing| ==> WellFormedPage(listing[q], |listing|)
  }

  /** On a well-formed listing, one page's answer: the first match there, or
      the next page, or "not found" on the last page. */
  lemma ScanWellFormed(title: string, listing: Listing, p: int)
    requires 1 <= p <= |listing|
    requires WellFormedPage(listing[p - 1], |listing|)
    ensures ScanPage(title, p, PageReply(listing, p))
         == match FirstWithTitle(PageOf(listing, p), title)
            case Some(ns) => Hit(ns)
            case None => if p < |listing| then NextPage else Stop(NamespaceNotFound(title))
  {
    var reply := listing[p - 1];
    assert reply.Fulfilled? && reply.response.ok;
    assert PageNamespaces(reply.response) == PageOf(listing, p) != [];
  }

  /** On a well-formed listing the search stops at the first page that holds
      the title, returns the first namespace there with that title, and has
      listed every page up to it exactly once. */
  lemma {:induction false} FindFirstOccurrence(title: string, listing: Listing, p: int, n: int)
    requires WellFormedListing(listing)
    requires 1 <= p <= n <= |listing|
    requires FirstWithTitle(PageOf(listing, n), title).Some?
    requires forall q :: p <= q < n ==> FirstWithTitle(PageOf(listing, q), title).None?
    ensures FindSpec(title, p, listing) == (Ok(FirstWithTitle(PageOf(listing, n), title).value), n - p + 1)
    decreases n - p
  {
    ScanWellFormed(title, listing, p);
    FindSpecStep(title, p, listing);
    if p < n {
      FindFirstOccurrence(title, listing, p + 1, n);
    }
  }

  /** On a well-formed listing without the title, the search lists every
      remaining page once and then fails with "namespace not found". */
  lemma {:induction false} FindExhausted(title: string, listing: Listing, p: int)
    requires WellFormedListing(listing)
    requires 1 <= p <= |listing|
    requires forall q :: p <= q <= |listing| ==> FirstWithTitle(PageOf(listing, q), title).None?
    ensures FindSpec(title, p, listing) == (Err(NamespaceNotFound(title)), |listing| - p + 1)
    decreases |listing| - p
  {
    assert FirstWithTitle(PageOf(listing, p), title).None?;
    ScanWellFormed(title, listing, p);
    FindSpecStep(title, p, listing);
    if p < |listing| {
      FindExhausted(title, listing, p + 1);
    }
  }

  /** When the pages before page `n` are well formed and lack the title, and
      page `n` stops the search, the search fails with what stopped it after
      listing every page from `p` to `n` once. */
  lemma {:induction false} FindStopsAt(title: string, listing: Listing, p: int, n: int)
    requires 1 <= p <= n <= |listing|
    requires forall q :: p <= q < n ==> WellFormedPage(PageReply(listing, q), |listing|)
    requires forall q :: p <= q < n ==> FirstWithTitle(PageOf(listing, q), title).None?
    requires ScanPage(title, n, listing[n - 1]).Stop?
    ensures FindSpec(title, p, listing) == (Err(ScanPage(title, n, listing[n - 1]).failure), n - p + 1)
    decreases n - p
  {
    FindSpecStep(title, p, listing);
    if p < n {
      ScanWellFormed(title, listing, p);
      FindStopsAt(title, listing, p + 1, n);
    }
  }

  /** The failure paths of the search: when the pages before page `n` are
      well formed and lack the title, a rejected, unsuccessful or empty page
      `n` ends the search with the matching error after `n - p + 1` listings. */
  lemma FindFailsOnBadPage(title: string, listing: Listing, p: int, n: int)
    requires 1 <= p <= n <= |listing|
    requires forall q :: p <= q < n ==> WellFormedPage(PageReply(listing, q), |listing|)
    requires forall q :: p <= q < n ==> FirstWithTitle(PageOf(listing, q), title).None?
    ensures listing[n - 1].Rejected? ==>
      FindSpec(title, p, listing) == (Err(TransportFailed(listing[n - 1].reason)), n - p + 1)
    ensures listing[n - 1].Fulfilled? && !listing[n - 1].response.ok ==>
      FindSpec(title, p, listing)
      == (Err(ListFailed(listing[n - 1].response.statusText, PayloadOf(listing[n - 1].response))), n - p + 1)
    ensures Succeeded(listing[n - 1]) && PageOf(listing, n) == [] ==>
      FindSpec(title, p, listing) == (Err(NoNamespacesInResponse), n - p + 1)
  {
    if ScanPage(title, n, listing[n - 1]).Stop? {
      FindStopsAt(title, listing, p, n);
    }
  }

  predicate AllTitleInUse(errors: seq<ApiError>)
  {
    forall i :: 0 <= i < |errors| ==> errors[i].code == NamespaceTitleInUse
  }

  /** What `init` makes of the answer to `createNamespace`. */
  datatype Resolution = Created(id: string) | TitleInUse | Fail(failure: Failure)

  function ResolveCreate(reply: Outcome<Namespace>): Resolution
  {
    match reply
    case Rejected(reason) => Fail(TransportFailed(reason))
    case Fulfilled(resp) =>
      if !resp.ok then
        match PayloadOf(resp).errors
        case None => Fail(MalformedBody)
        case Some(es) =>
          if AllTitleInUse(es) then TitleInUse else Fail(CreateFailed(resp.statusText, PayloadOf(resp)))
      else
        match resp.json
        case None => Fail(MalformedBody)
        case Some(env) =>
          match env.result
          case None => Fail(MalformedBody)
          case Some(ns) => Created(ns.id)
  }

  /** The outcome of a first `init` (the namespace ID or the failure) and the
      number of pages it lists. */
  function InitSpec(title: string, createReply: Outcome<Namespace>, listing: Listing): (Result<string, Failure>, nat)
  {
    match ResolveCreate(createReply)
    case Created(id) => (Ok(id), 0)
    case Fail(f) => (Err(f), 0)
    case TitleInUse =>
      var found := FindSpec(title, 1, listing);
      (match found.0 case Ok(ns) => Ok(ns.id) case Err(f) => Err(f), found.1)
  }

  /** A failed create whose errors are all "title in use" (or that lists no
      errors) falls back to searching the listing from page 1. */
  lemma InitFallsBackOnTitleInUse(title: string, createReply: Outcome<Namespace>, listing: Listing)
    requires createReply.Fulfilled? && !createReply.response.ok
    requires PayloadOf(createReply.response).errors.Some?
    requires AllTitleInUse(PayloadOf(createReply.response).errors.value)
    ensures InitSpec(title, createReply, listing).1 == FindSpec(title, 1, listing).1
    ensures InitSpec(title, createReply, listing).0.Ok? <==> FindSpec(title, 1, listing).0.Ok?
    ensures FindSpec(title, 1, listing).0.Ok? ==> InitSpec(title, createReply, listing).0.value == FindSpec(title, 1, listing).0.value.id
    ensures FindSpec(title, 1, listing).0.Err? ==> InitSpec(title, createReply, listing).0.error == FindSpec(title, 1, listing).0.error
  {
  }

  /** A successful create whose body holds the new namespace adopts its ID
      and lists nothing; a rejected create, or a successful one whose body
      does not parse or has no `result`, fails without listing. */
  lemma InitAdoptsCreatedID(title: string, createReply: Outcome<Namespace>, listing: Listing)
    ensures Succeeded(createReply) && createReply.response.json.Some? && createReply.response.json.value.result.Some? ==>
      InitSpec(title, createReply, listing) == (Ok(createReply.response.json.value.result.value.id), 0)
    ensures createReply.Rejected? ==>
      InitSpec(title, createReply, listing) == (Err(TransportFailed(createReply.reason)), 0)
    ensures Succeeded(createReply) && (createReply.response.json.None? || createReply.response.json.value.result.None?) ==>
      InitSpec(title, createReply, listing) == (Err(MalformedBody), 0)
  {
  }

  /** Any other failed create throws "Unable to create namespace" with the
      parsed payload, or with the `unknown` payload when the body does not
      parse, and lists nothing. */
  lemma InitRejectsOtherErrors(title: string, createReply: Outcome<Namespace>, listing: Listing, i: nat)
    requires createReply.Fulfilled? && !createReply.response.ok
    requires PayloadOf(createReply.response).errors.Some?
    requires i < |PayloadOf(createReply.response).errors.value|
    requires PayloadOf(createReply.response).errors.value[i].code != NamespaceTitleInUse
    ensures InitSpec(title, createReply, listing)
         == (Err(CreateFailed(createReply.response.statusText, PayloadOf(createReply.response))), 0)
    ensures createReply.response.json.None? ==>
      InitSpec(title, createReply, listing) == (Err(CreateFailed(createReply.response.statusText, UnknownPayload)), 0)
  {
  }

  /** When the title is in use and the listing is well formed, `init` adopts
      the ID of the first namespace with that title on the first page that
      has one, after listing exactly the pages up to it. */
  lemma InitFindsExistingNamespace(title: string, createReply: Outcome<Namespace>, listing: Listing, n: int)
    requires createReply.Fulfilled? && !createReply.response.ok
    requires PayloadOf(createReply.response).errors.Some?
    requires AllTitleInUse(PayloadOf(createReply.response).errors.value)
    requires WellFormedListing(listing)
    requires 1 <= n <= |listing|
    requires FirstWithTitle(PageOf(listing, n), title).Some?
    requires forall q :: 1 <= q < n ==> FirstWithTitle(PageOf(listing, q), title).None?
    ensures InitSpec(title, createReply, listing) == (Ok(FirstWithTitle(PageOf(listing, n), title).value.id), n)
  {
    FindFirstOccurrence(title, listing, 1, n);
  }

  class CloudflareKVAdaptor {
    const kv: G.Config
    /** The title of the namespace that holds the switches. */
    const namespace: string
    /** `set` sends its value as a multipart form. */
    const style: G.WriteStyle := G.MultipartWrite
    var namespaceID: Option<string>
    var initialized: bool
    /** Every request issued so far, in order, as the builder call that made
        it; `G.RequestFor(kv, style, c)` is the request itself. */
    ghost var calls: seq<G.Call>

    ghost predicate Valid()
      reads this
    {
      initialized ==> namespaceID.Some?
    }

    constructor (namespace: string, authToken: string, accountID: string, apiBaseURL: Option<string>)
      ensures kv == G.MakeConfig(authToken, accountID, apiBaseURL) && this.namespace == namespace
      ensures namespaceID.None? && !initialized && calls == []
      ensures Valid()
    {
      kv := G.MakeConfig(authToken, accountID, apiBaseURL);
      this.namespace := namespace;
      namespaceID := None;
      initialized := false;
      calls := [];
    }

    /** The guard of `get` and `set`: initialized, with a non-empty namespace ID. */
    predicate Ready()
      reads this
    {
      initialized && namespaceID.Some? && namespaceID.value != ""
    }

    /** `findNamespace`: list the pages from `page` on until one holds the title. */
    method FindNamespace(title: string, page: int, listing: Listing) returns (r: Result<Namespace, Failure>)
      requires page >= 1
      modifies this`calls
      ensures r == FindSpec(title, page, listing).0
      ensures calls == old(calls) + ListCalls(page, FindSpec(title, page, listing).1)
    {
      var p := page;
      ghost var k: nat := 0;
      while true
        invariant p == page + k
        invariant calls == old(calls) + ListCalls(page, k)
        invariant FindSpec(title, page, listing).0 == FindSpec(title, p, listing).0
        invariant FindSpec(title, page, listing).1 == k + FindSpec(title, p, listing).1
        decreases |listing| + 1 - p
      {
        ListCallsSnoc(page, k);
        calls := calls + [G.ListNamespacesCall(SearchOptions(p))];
        k := k + 1;
        FindSpecStep(title, p, listing);
        match ScanPage(title, p, PageReply(listing, p)) {
          case Hit(ns) =>
            return Ok(ns);
          case Stop(f) =>
            return Err(f);
          case NextPage =>
            p := p + 1;
        }
      }
    }

    /** `init`: a no-op once initialized; otherwise create the namespace, and
        when its title is already in use, search the listing for it. */
    method Init(createReply: Outcome<Namespace>, listing: Listing) returns (r: Result<(), Failure>)
      requires Valid()
      modifies this`namespaceID, this`initialized, this`calls
      ensures Valid()
      ensures old(initialized) ==>
        r == Ok(()) && initialized && namespaceID == old(namespaceID) && calls == old(calls)
      ensures !old(initialized) ==>
        calls == old(calls) + [G.CreateNamespaceCall(namespace)]
                + ListCalls(1, InitSpec(namespace, createReply, listing).1)
      ensures !old(initialized) && InitSpec(namespace, createReply, listing).0.Ok? ==>
        r == Ok(()) && initialized && namespaceID == Some(InitSpec(namespace, createReply, listing).0.value)
      ensures !old(initialized) && InitSpec(namespace, createReply, listing).0.Err? ==>
        r == Err(InitSpec(namespace, createReply, listing).0.error) && !initialized && namespaceID == old(namespaceID)
    {
      if initialized {
        return Ok(());
      }
      calls := calls + [G.CreateNamespaceCall(namespace)];
      match ResolveCreate(createReply) {
        case Created(id) =>
          namespaceID := Some(id);
          initialized := true;
          r := Ok(());
        case Fail(f) =>
          r := Err(f);
        case TitleInUse =>
          var found := FindNamespace(namespace, 1, listing);
          match found {
            case Ok(ns) =>
              namespaceID := Some(ns.id);
              initialized := true;
              r := Ok(());
            case Err(f) =>
              r := Err(f);
          }
      }
    }

    /** `get`: read the value and the metadata of `key`. It never resolves
        to "not found": a missing key fails like any other failed read. */
    method Get(key: string, valueReply: ValueReply, metadataReply: MetadataReply)
      returns (r: Result<Option<Switch>, Failure>)
      modifies this`calls
      ensures !Ready() ==> r == Err(NotInitialized) && calls == old(calls)
      ensures Ready() ==>
        calls == old(calls) + [G.ReadKeyCall(namespaceID.value, key), G.ReadMetadataCall(namespaceID.value, key)]
      ensures Ready() && ReadSwitch(valueReply, metadataReply).Ok? ==>
        r == Ok(Some(ReadSwitch(valueReply, metadataReply).value))
      ensures Ready() && ReadSwitch(valueReply, metadataReply).Err? ==>
        r == Err(ReadSwitch(valueReply, metadataReply).error)
    {
      if !initialized || namespaceID.None? || namespaceID.value == "" {
        return Err(NotInitialized);
      }
      var id := namespaceID.value;
      calls := calls + [G.ReadKeyCall(id, key), G.ReadMetadataCall(id, key)];
      if valueReply.Rejected? || metadataReply.Rejected? || !valueReply.response.ok || !metadataReply.response.ok {
        var errors := CollectLoadErrors(valueReply, metadataReply);
        return Err(LoadFailed(errors));
      }
      match metadataReply.response.json {
        case None =>
          r := Err(MalformedBody);
        case Some(env) =>
          r := Ok(Some(Switch(valueReply.response.text, env.result)));
      }
    }

    /** `set`: write the value with its metadata (`{}` when absent) as a
        multipart form. */
    method Set(key: string, value: string, metadata: Option<SwitchMetadata>, writeReply: Outcome<()>)
      returns (r: Result<(), Failure>)
      modifies this`calls
      ensures !Ready() ==> r == Err(NotInitialized) && calls == old(calls)
      ensures Ready() ==>
        calls == old(calls) + [G.WriteKeyWithMetadataCall(namespaceID.value, key, value, MetadataOrEmpty(metadata))]
      ensures Ready() ==>
        G.RequestFor(kv, style, calls[|calls| - 1])
        == G.Request(G.PUT, G.KeyURL(kv, namespaceID.value, "values", key), [G.Authorization(kv)],
                     G.FormValueAndMetadata(value, MetadataOrEmpty(metadata)))
      ensures Ready() && writeReply.Rejected? ==> r == Err(TransportFailed(writeReply.reason))
      ensures Ready() && writeReply.Fulfilled? ==>
        (r.Ok? <==> writeReply.response.ok)
        && (!writeReply.response.ok ==> r == Err(WriteFailed(PayloadOf(writeReply.response))))
    {
      if !initialized || namespaceID.None? || namespaceID.value == "" {
        return Err(NotInitialized);
      }
      calls := calls + [G.WriteKeyWithMetadataCall(namespaceID.value, key, value, MetadataOrEmpty(metadata))];
      match writeReply {
        case Rejected(reason) =>
          r := Err(TransportFailed(reason));
        case Fulfilled(resp) =>
          if !resp.ok {
            r := Err(WriteFailed(PayloadOf(resp)));
          } else {
            r := Ok(());
          }
      }
    }
  }
}
