/** `CloudflareKV`: one request descriptor per Workers KV endpoint. Nothing is
    sent here; each builder only says which method, URL, headers and body the
    request has. The repository holds two copies of this class that differ
    only in `writeKeyWithMetadata`, which `WriteStyle` selects. */
module Gateway {
  import opened Wrappers
  import opened StorageInterface
  import PE = PercentEncoding
  import Q = FormQuery
  import Decimal
  import Utf8

  const DefaultApiBaseURL := "https://api.cloudflare.com/client/v4"

  /** The constructor's options after defaults are applied. */
  datatype Config = Config(authToken: string, accountID: string, apiBaseURL: string)

  function MakeConfig(authToken: string, accountID: string, apiBaseURL: Option<string>): (c: Config)
    ensures c.authToken == authToken && c.accountID == accountID
    ensures apiBaseURL.None? ==> c.apiBaseURL == DefaultApiBaseURL
    ensures apiBaseURL.Some? ==> c.apiBaseURL == apiBaseURL.value
  {
    Config(authToken, accountID, match apiBaseURL case Some(u) => u case None => DefaultApiBaseURL)
  }

  datatype Method = GET | POST | PUT | DELETE

  /** A header, with its name as a `Headers` object reports it (lower case). */
  datatype Header = Header(name: string, value: string)

  datatype BulkEntry = BulkEntry(
    key: string, value: string, base64: Option<bool>, expiration: Option<int>,
    expirationTTL: Option<int>, metadata: Option<map<string, string>>)

  /** What a body carries; the JSON text and the multipart boundary are not modelled. */
  datatype Body =
    | NoBody
    | JsonTitle(title: string)
    | JsonKeys(keys: seq<string>)
    | JsonBulk(entries: seq<BulkEntry>)
    | JsonValueAndMetadata(value: string, metadata: SwitchMetadata)
    | FormValueAndMetadata(value: string, metadata: SwitchMetadata)

  datatype Request = Request(httpMethod: Method, url: string, headers: seq<Header>, body: Body)

  /** The copy in the adaptor package writes a multipart form; the copy inside
      SwitchKit writes a JSON body. */
  datatype WriteStyle = MultipartWrite | JsonWrite

  function Authorization(cfg: Config): Header
  {
    Header("authorization", "Bearer " + cfg.authToken)
  }

  /** `baseRequestHeaders`: the bearer token and a JSON content type. */
  function BaseHeaders(cfg: Config): seq<Header>
  {
    [Authorization(cfg), Header("content-type", "application/json")]
  }

  function NamespacesURL(cfg: Config): string
  {
    cfg.apiBaseURL + "/accounts/" + cfg.accountID + "/storage/kv/namespaces"
  }

  /** The namespace ID is interpolated as it is, without encoding. */
  function NamespaceURL(cfg: Config, namespaceID: string): string
  {
    NamespacesURL(cfg) + "/" + namespaceID
  }

  /** `url.search = params.toString()` only when the query is not empty. The
      serialized query holds only characters the URL setter keeps as they are. */
  function WithQuery(url: string, params: seq<Q.Param>): string
  {
    if params == [] then url else url + "?" + Q.Serialize(params)
  }

  /** A JavaScript string option is truthy when present and not empty. */
  predicate IsTruthyString(o: Option<string>)
  {
    o.Some? && o.value != ""
  }

  /** A JavaScript number option is truthy when present and not zero. */
  predicate IsTruthyNumber(o: Option<int>)
  {
    o.Some? && o.value != 0
  }

  datatype Direction = Asc | Desc
  datatype Order = ById | ByTitle

  datatype ListNamespacesOptions = ListNamespacesOptions(
    direction: Option<Direction>, order: Option<Order>, page: Option<int>, perPage: Option<int>)

  function DirectionName(d: Direction): string
  {
    match d
    case Asc => "asc"
    case Desc => "desc"
  }

  function OrderName(o: Order): string
  {
    match o
    case ById => "id"
    case ByTitle => "title"
  }

  function ListNamespacesParams(o: ListNamespacesOptions): seq<Q.Param>
  {
    (if o.direction.Some? then [("direction", DirectionName(o.direction.value))] else [])
    + (if o.order.Some? then [("order", OrderName(o.order.value))] else [])
    + (if IsTruthyNumber(o.page) then [("page", Decimal.IntToString(o.page.value))] else [])
    + (if IsTruthyNumber(o.perPage) then [("per_page", Decimal.IntToString(o.perPage.value))] else [])
  }

  function ListNamespaces(cfg: Config, o: ListNamespacesOptions): Request
  {
    Request(GET, WithQuery(NamespacesURL(cfg), ListNamespacesParams(o)), BaseHeaders(cfg), NoBody)
  }

  function CreateNamespace(cfg: Config, title: string): Request
  {
    Request(POST, NamespacesURL(cfg), BaseHeaders(cfg), JsonTitle(title))
  }

  function RemoveNamespace(cfg: Config, namespaceID: string): Request
  {
    Request(DELETE, NamespaceURL(cfg, namespaceID), BaseHeaders(cfg), NoBody)
  }

  function RenameNamespace(cfg: Config, namespaceID: string, title: string): Request
  {
    Request(PUT, NamespaceURL(cfg, namespaceID), BaseHeaders(cfg), JsonTitle(title))
  }

  function DeleteKeys(cfg: Config, namespaceID: string, keys: seq<string>): Request
  {
    Request(DELETE, NamespaceURL(cfg, namespaceID) + "/bulk", BaseHeaders(cfg), JsonKeys(keys))
  }

  function BulkWrite(cfg: Config, namespaceID: string, data: seq<BulkEntry>): Request
  {
    Request(PUT, NamespaceURL(cfg, namespaceID) + "/bulk", BaseHeaders(cfg), JsonBulk(data))
  }

  datatype ListKeysOptions = ListKeysOptions(cursor: Option<string>, limit: Option<int>, prefix: Option<string>)

  function ListKeysParams(o: ListKeysOptions): seq<Q.Param>
  {
    (if IsTruthyString(o.cursor) then [("cursor", o.cursor.value)] else [])
    + (if IsTruthyNumber(o.limit) then [("limit", Decimal.IntToString(o.limit.value))] else [])
    + (if IsTruthyString(o.prefix) then [("prefix", o.prefix.value)] else [])
  }

  function ListKeys(cfg: Config, namespaceID: string, o: ListKeysOptions): Request
  {
    Request(GET, WithQuery(NamespaceURL(cfg, namespaceID) + "/keys", ListKeysParams(o)), BaseHeaders(cfg), NoBody)
  }

  /** `.../namespaces/{namespaceID}/{resource}/{encodeURIComponent(key)}`. */
  function KeyURL(cfg: Config, namespaceID: string, resource: string, key: string): string
  {
    NamespaceURL(cfg, namespaceID) + "/" + resource + "/" + PE.EncodeURIComponent(key)
  }

  function ReadMetadata(cfg: Config, namespaceID: string, key: string): Request
  {
    Request(GET, KeyURL(cfg, namespaceID, "metadata", key), BaseHeaders(cfg), NoBody)
  }

  function DeleteKey(cfg: Config, namespaceID: string, key: string): Request
  {
    Request(DELETE, KeyURL(cfg, namespaceID, "values", key), BaseHeaders(cfg), NoBody)
  }

  function ReadKey(cfg: Config, namespaceID: string, key: string): Request
  {
    Request(GET, KeyURL(cfg, namespaceID, "values", key), BaseHeaders(cfg), NoBody)
  }

  /** The multipart write sends only the Authorization header, so that the
      transport sets the multipart content type; the JSON write sends the
      base headers. */
  function WriteKeyWithMetadata(cfg: Config, namespaceID: string, key: string, value: string,
                                metadata: SwitchMetadata, style: WriteStyle): Request
  {
    match style
    case MultipartWrite =>
      Request(PUT, KeyURL(cfg, namespaceID, "values", key), [Authorization(cfg)],
              FormValueAndMetadata(value, metadata))
    case JsonWrite =>
      Request(PUT, KeyURL(cfg, namespaceID, "values", key), BaseHeaders(cfg),
              JsonValueAndMetadata(value, metadata))
  }

  /** A call of one of the builders the adaptor and the SwitchKit client use,
      with its arguments. */
  datatype Call =
    | ListNamespacesCall(listOptions: ListNamespacesOptions)
    | CreateNamespaceCall(title: string)
    | ReadKeyCall(namespaceID: string, key: string)
    | ReadMetadataCall(namespaceID: string, key: string)
    | WriteKeyWithMetadataCall(namespaceID: string, key: string, value: string, metadata: SwitchMetadata)

  /** The request a call sends. */
  function RequestFor(cfg: Config, style: WriteStyle, call: Call): Request
  {
    match call
    case ListNamespacesCall(o) => ListNamespaces(cfg, o)
    case CreateNamespaceCall(title) => CreateNamespace(cfg, title)
    case ReadKeyCall(id, key) => ReadKey(cfg, id, key)
    case ReadMetadataCall(id, key) => ReadMetadata(cfg, id, key)
    case WriteKeyWithMetadataCall(id, key, value, metadata) => WriteKeyWithMetadata(cfg, id, key, value, metadata, style)
  }

  /** The value of the first parameter called `name`, if any. */
  function Lookup(params: seq<Q.Param>, name: string): Option<string>
  {
    if params == [] then None
    else if params[0].0 == name then Some(params[0].1)
    else Lookup(params[1..], name)
  }

  lemma {:induction false} LookupAppend(a: seq<Q.Param>, b: seq<Q.Param>, name: string)
    ensures Lookup(a + b, name) == if Lookup(a, name).Some? then Lookup(a, name) else Lookup(b, name)
  {
    if a != [] {
      assert (a + b)[1..] == a[1..] + b;
      LookupAppend(a[1..], b, name);
    } else {
      assert a + b == b;
    }
  }

  /** Position of a parameter name in the fixed order direction, order,
      page, per_page of `listNamespaces`. */
  function ListNamespacesRank(name: string): int
  {
    if name == "direction" then 0 else if name == "order" then 1
    else if name == "page" then 2 else if name == "per_page" then 3 else 4
  }

  /** `listNamespaces` sends exactly the options that are truthy, each with its
      value, in the order direction, order, page, per_page; a page of 0 is not
      sent. */
  lemma ListNamespacesParamsSent(o: ListNamespacesOptions)
    ensures var ps := ListNamespacesParams(o);
      && Lookup(ps, "direction") == (if o.direction.Some? then Some(DirectionName(o.direction.value)) else None)
      && Lookup(ps, "order") == (if o.order.Some? then Some(OrderName(o.order.value)) else None)
      && Lookup(ps, "page") == (if IsTruthyNumber(o.page) then Some(Decimal.IntToString(o.page.value)) else None)
      && Lookup(ps, "per_page")
         == (if IsTruthyNumber(o.perPage) then Some(Decimal.IntToString(o.perPage.value)) else None)
    ensures var ps := ListNamespacesParams(o);
      forall i, j :: 0 <= i < j < |ps| ==> ListNamespacesRank(ps[i].0) < ListNamespacesRank(ps[j].0) < 4
  {
    var d := if o.direction.Some? then [("direction", DirectionName(o.direction.value))] else [];
    var r := if o.order.Some? then [("order", OrderName(o.order.value))] else [];
    var p := if IsTruthyNumber(o.page) then [("page", Decimal.IntToString(o.page.value))] else [];
    var pp := if IsTruthyNumber(o.perPage) then [("per_page", Decimal.IntToString(o.perPage.value))] else [];
    assert ListNamespacesParams(o) == d + (r + (p + pp));
    LookupFour(d, r, p, pp, "direction");
    LookupFour(d, r, p, pp, "order");
    LookupFour(d, r, p, pp, "page");
    LookupFour(d, r, p, pp, "per_page");
  }

  lemma LookupFour(d: seq<Q.Param>, r: seq<Q.Param>, p: seq<Q.Param>, pp: seq<Q.Param>, name: string)
    ensures Lookup(d + (r + (p + pp)), name)
         == if Lookup(d, name).Some? then Lookup(d, name)
            else if Lookup(r, name).Some? then Lookup(r, name)
            else if Lookup(p, name).Some? then Lookup(p, name)
            else Lookup(pp, name)
  {
    LookupAppend(d, r + (p + pp), name);
    LookupAppend(r, p + pp, name);
    LookupAppend(p, pp, name);
  }

  /** When no option is set no query is appended: the URL is the namespaces
      URL itself. Otherwise a '?' and the query are appended, and the query
      reads back as exactly the parameters sent. */
  lemma ListNamespacesURL(cfg: Config, o: ListNamespacesOptions)
    ensures var url := ListNamespaces(cfg, o).url;
      if o.direction.None? && o.order.None? && !IsTruthyNumber(o.page) && !IsTruthyNumber(o.perPage)
      then url == NamespacesURL(cfg)
      else url == NamespacesURL(cfg) + "?" + Q.Serialize(ListNamespacesParams(o))
           && Q.Parse(Q.Serialize(ListNamespacesParams(o))) == Some(ListNamespacesParams(o))
  {
    Q.ParseSerialize(ListNamespacesParams(o));
  }

  /** `listKeys` sends exactly the truthy options, each with its value, in
      the order cursor, limit, prefix; an empty cursor or prefix and a limit
      of 0 are not sent. */
  lemma ListKeysParamsSent(o: ListKeysOptions)
    ensures var ps := ListKeysParams(o);
      && Lookup(ps, "cursor") == (if IsTruthyString(o.cursor) then o.cursor else None)
      && Lookup(ps, "limit") == (if IsTruthyNumber(o.limit) then Some(Decimal.IntToString(o.limit.value)) else None)
      && Lookup(ps, "prefix") == (if IsTruthyString(o.prefix) then o.prefix else None)
    ensures var ps := ListKeysParams(o);
      forall i, j :: 0 <= i < j < |ps| ==> ListKeysRank(ps[i].0) < ListKeysRank(ps[j].0) < 3
  {
    var c := if IsTruthyString(o.cursor) then [("cursor", o.cursor.value)] else [];
    var l := if IsTruthyNumber(o.limit) then [("limit", Decimal.IntToString(o.limit.value))] else [];
    var x := if IsTruthyString(o.prefix) then [("prefix", o.prefix.value)] else [];
    assert ListKeysParams(o) == c + (l + x);
    LookupThree(c, l, x, "cursor");
    LookupThree(c, l, x, "limit");
    LookupThree(c, l, x, "prefix");
  }

  /** Position of a parameter name in the fixed order cursor, limit, prefix of `listKeys`. */
  function ListKeysRank(name: string): int
  {
    if name == "cursor" then 0 else if name == "limit" then 1 else if name == "prefix" then 2 else 3
  }

  lemma LookupThree(c: seq<Q.Param>, l: seq<Q.Param>, x: seq<Q.Param>, name: string)
    ensures Lookup(c + (l + x), name)
         == if Lookup(c, name).Some? then Lookup(c, name) else if Lookup(l, name).Some? then Lookup(l, name) else Lookup(x, name)
  {
    LookupAppend(c, l + x, name);
    LookupAppend(l, x, name);
  }

  /** With no option set no query is appended to the keys URL; otherwise a
      '?' and the query are, and the query reads back as exactly the
      parameters sent. */
  lemma ListKeysURL(cfg: Config, namespaceID: string, o: ListKeysOptions)
    ensures var url := ListKeys(cfg, namespaceID, o).url;
      if !IsTruthyString(o.cursor) && !IsTruthyNumber(o.limit) && !IsTruthyString(o.prefix)
      then url == NamespaceURL(cfg, namespaceID) + "/keys"
      else url == NamespaceURL(cfg, namespaceID) + "/keys" + "?" + Q.Serialize(ListKeysParams(o))
           && Q.Parse(Q.Serialize(ListKeysParams(o))) == Some(ListKeysParams(o))
  {
    Q.ParseSerialize(ListKeysParams(o));
  }

  /** Unlike a key, a namespace ID is put into the URL as it is: without a
      '/' it is the last segment of the namespace's URL, unescaped. */
  lemma NamespaceSegmentRaw(cfg: Config, namespaceID: string)
    requires '/' !in namespaceID
    ensures LastSegment(RemoveNamespace(cfg, namespaceID).url) == namespaceID
  {
    LastSegmentAfterSlash(NamespacesURL(cfg), namespaceID);
  }

  /** `createNamespace` posts the title as JSON, with the base headers, to
      the URL `listNamespaces` lists when no option is set. */
  lemma CreateNamespaceRequest(cfg: Config, title: string)
    ensures var c := CreateNamespace(cfg, title);
      && c.httpMethod == POST && c.headers == BaseHeaders(cfg) && c.body == JsonTitle(title)
      && c.url == ListNamespaces(cfg, ListNamespacesOptions(None, None, None, None)).url
      && LastSegment(c.url) == "namespaces"
  {
    ListNamespacesURL(cfg, ListNamespacesOptions(None, None, None, None));
    LastSegmentAfterSlash(cfg.apiBaseURL + "/accounts/" + cfg.accountID + "/storage/kv", "namespaces");
    assert NamespacesURL(cfg) == cfg.apiBaseURL + "/accounts/" + cfg.accountID + "/storage/kv" + "/" + "namespaces";
  }

  /** The requests on one namespace all carry the base headers: removing it
      sends no body, renaming it sends the same JSON title as creating one,
      and the bulk delete sends the keys while the bulk write sends the
      entries. Rename and remove share the namespace's URL, and the bulk
      delete and the bulk write share its `/bulk` endpoint, whatever the ID. */
  lemma NamespaceRequests(cfg: Config, namespaceID: string, title: string, keys: seq<string>, data: seq<BulkEntry>)
    ensures var rm := RemoveNamespace(cfg, namespaceID);
      var rn := RenameNamespace(cfg, namespaceID, title);
      && rm.httpMethod == DELETE && rm.body == NoBody
      && rn.httpMethod == PUT && rn.body == CreateNamespace(cfg, title).body
      && rm.headers == rn.headers == BaseHeaders(cfg)
      && rn.url == rm.url
      && DeleteKeys(cfg, namespaceID, keys).url == BulkWrite(cfg, namespaceID, data).url == rm.url + "/bulk"
    ensures var dk := DeleteKeys(cfg, namespaceID, keys);
      var bw := BulkWrite(cfg, namespaceID, data);
      && dk.httpMethod == DELETE && bw.httpMethod == PUT
      && dk.body == JsonKeys(keys) && bw.body == JsonBulk(data)
      && dk.headers == bw.headers == BaseHeaders(cfg)
  {
  }

  /** Reading, reading the metadata of and deleting a key send the base
      headers and no body; reading and deleting share the value URL, and the
      metadata URL differs from it only in the resource segment. */
  lemma KeyRequests(cfg: Config, namespaceID: string, key: string)
    ensures var rk := ReadKey(cfg, namespaceID, key);
      var rm := ReadMetadata(cfg, namespaceID, key);
      var dk := DeleteKey(cfg, namespaceID, key);
      && rk.httpMethod == GET && rm.httpMethod == GET && dk.httpMethod == DELETE
      && rk.headers == rm.headers == dk.headers == BaseHeaders(cfg)
      && rk.body == rm.body == dk.body == NoBody
      && dk.url == rk.url == KeyURL(cfg, namespaceID, "values", key)
      && rm.url == KeyURL(cfg, namespaceID, "metadata", key)
      && LastSegment(rm.url) == LastSegment(rk.url)
  {
    KeySegmentRoundTrip(cfg, namespaceID, "values", key);
    KeySegmentRoundTrip(cfg, namespaceID, "metadata", key);
  }

  /** The part of a URL after its last '/'. */
  function LastSegment(url: string): string
  {
    if url == [] then ""
    else if url[|url| - 1] == '/' then ""
    else LastSegment(url[..|url| - 1]) + [url[|url| - 1]]
  }

  lemma {:induction false} LastSegmentAfterSlash(a: string, t: string)
    requires '/' !in t
    ensures LastSegment(a + "/" + t) == t
  {
    if t != [] {
      var s := a + "/" + t;
      assert s[..|s| - 1] == a + "/" + t[..|t| - 1];
      LastSegmentAfterSlash(a, t[..|t| - 1]);
      assert t[..|t| - 1] + [t[|t| - 1]] == t;
    }
  }

  /** A key stays one path segment whatever characters it holds (an encoded
      key has no '/'), and that segment decodes back to the key. */
  lemma KeySegmentRoundTrip(cfg: Config, namespaceID: string, resource: string, key: string)
    ensures LastSegment(KeyURL(cfg, namespaceID, resource, key)) == PE.EncodeURIComponent(key)
    ensures PE.DecodeURIComponent(LastSegment(KeyURL(cfg, namespaceID, resource, key))) == Some(key)
  {
    var enc := PE.EncodeURIComponent(key);
    LastSegmentAfterSlash(NamespaceURL(cfg, namespaceID) + "/" + resource, enc);
    PE.DecodeEncodeURIComponent(key);
  }

  /** The two copies of `writeKeyWithMetadata` send the same method to the
      same URL; they differ only in the body and in the headers. */
  lemma WriteStylesDiffer(cfg: Config, namespaceID: string, key: string, value: string, metadata: SwitchMetadata)
    ensures var m := WriteKeyWithMetadata(cfg, namespaceID, key, value, metadata, MultipartWrite);
      var j := WriteKeyWithMetadata(cfg, namespaceID, key, value, metadata, JsonWrite);
      && m.httpMethod == j.httpMethod == PUT
      && m.url == j.url == ReadKey(cfg, namespaceID, key).url
      && m.headers == [Authorization(cfg)] && j.headers == BaseHeaders(cfg)
      && m.body == FormValueAndMetadata(value, metadata) && j.body == JsonValueAndMetadata(value, metadata)
  {
  }

  const ExampleConfig := MakeConfig("auth-token", "account-id", None)

  /** The namespaces URL of the example configuration, written out. */
  lemma ExampleNamespacesURL()
    ensures NamespacesURL(ExampleConfig)
         == "https://api.cloudflare.com/client/v4/accounts/account-id/storage/kv/namespaces"
  {
    assert ExampleConfig.apiBaseURL == "https://api.cloudflare.com/client/v4" && ExampleConfig.accountID == "account-id";
    assert "https://api.cloudflare.com/client/v4" + "/accounts/" == "https://api.cloudflare.com/client/v4/accounts/";
    assert "https://api.cloudflare.com/client/v4/accounts/" + "account-id" == "https://api.cloudflare.com/client/v4/accounts/account-id";
    assert "https://api.cloudflare.com/client/v4/accounts/account-id" + "/storage/kv/namespaces"
        == "https://api.cloudflare.com/client/v4/accounts/account-id/storage/kv/namespaces";
  }

  /** The value URL of key `key!:` in namespace `namespace-id` of the
      example configuration, written out. */
  lemma ExampleValueURL()
    ensures "https://api.cloudflare.com/client/v4/accounts/account-id/storage/kv/namespaces" + "/namespace-id/values/key!%3A"
         == "https://api.cloudflare.com/client/v4/accounts/account-id/storage/kv/namespaces/namespace-id/values/key!%3A"
  {
    assert "https://api.cloudflare.com/client/v4/accounts/account-id/storage/kv/namespaces" + "/namespace-id"
        == "https://api.cloudflare.com/client/v4/accounts/account-id/storage/kv/namespaces/namespace-id";
  }

  /** The value URL of key `key!:` under the example namespaces URL. */
  lemma ExampleKeyURL()
    ensures ReadKey(ExampleConfig, "namespace-id", "key!:").url
         == NamespacesURL(ExampleConfig) + "/namespace-id/values/key!%3A"
  {
    PE.EncodeURIComponentExample();
  }

  /** The key `key!:` of the adaptor package's tests: '!' is kept, ':' is escaped. */
  lemma ReadKeyExample()
    ensures ReadKey(ExampleConfig, "namespace-id", "key!:").url
         == "https://api.cloudflare.com/client/v4/accounts/account-id/storage/kv/namespaces/namespace-id/values/key!%3A"
  {
    ExampleKeyURL();
    ExampleNamespacesURL();
    ExampleValueURL();
  }
}
