# switch-kit in Dafny

A model of switch-kit, a feature-switch client backed by Cloudflare Workers
KV. It has three layers:

- **`SwitchKit`** (`switch_kit.dfy`): the client. It keeps an in-memory cache of switches read or written through it. It is gated by `init`, and it turns backend failures into a logged message and "not found".
- **`CloudflareKVAdaptor`** (`adaptor.dfy`): the storage adaptor. It finds or creates its namespace by title. Its `get` needs two reads to succeed, and its `set` is a single multipart write.
- **`CloudflareKV`** (`gateway.dfy`): the request builders. Each one is the method, URL, headers and body of one Workers KV endpoint.

The builders rest on models of the encodings they use:

- `encodeURIComponent` over UTF-8, as in section 19.2.6.5 of ECMA-262 (`utf8.dfy`, `percent.dfy`);
- the `application/x-www-form-urlencoded` serializer of `URLSearchParams`, as in section 5.2 of the WHATWG URL Standard (`percent.dfy`, `query.dfy`);
- `Number.prototype.toString` for integers (`decimal.dfy`).

Each encoding has a decoder as its partner, with a round-trip proof.

The data types shared by the packages are in `storage_interface.dfy`:

- `Switch`: a string value with optional metadata;
- `SwitchMetadata`: a flat record of strings, numbers and booleans;
- `MetadataOrEmpty`: the `metadata = {}` default of both `set` methods.

The reply types and the failures are in `backend.dfy`.

Network answers are parameters of the methods:

- A request's answer is an `Outcome`: the fetch was `Rejected`, or it resolved to a response that has a status flag and a body.
- The body either parses as JSON or does not.
- `findNamespace` gets a `Listing`: the answers for pages 1, 2, … in order.

Each class records what it asks for, and what it logs, in ghost sequences:

- `calls` holds every builder call made, in order. `Gateway.RequestFor` gives the request each one sends.
- `log` holds every `console.error` message, in order.

So "no request", "exactly two requests" and "exactly one log line" are statements about these sequences.

## Model

| member | source | states |
|---|---|---|
| Utf8.EncodeChar | packages/cloudflare-kv-adaptor/src/index.ts:279-281 | a character becomes one to four bytes; exactly the ASCII characters take one byte, equal to their code; every later byte is a continuation byte |
| Utf8.DecodeOneEncodeChar | packages/cloudflare-kv-adaptor/src/index.ts:279-281 | the bytes of one character decode back to it and consume exactly those bytes, whatever follows |
| Utf8.OverlongRejected | packages/cloudflare-kv-adaptor/src/index.ts:279-281 | overlong forms (a two-byte 'A', a three-byte 'é', a four-byte ASCII character) do not decode |
| Utf8.DecodeEncode | packages/cloudflare-kv-adaptor/src/index.ts:279-281 | UTF-8 decoding gives back every encoded string; the decoder accepts only shortest forms, so this fixes the bytes sent for every character |
| PercentEncoding.EscapeByte | packages/cloudflare-kv-adaptor/src/index.ts:279-281 | an escape is '%' followed by two upper-case hexadecimal digits that read back as the byte's high and low halves |
| PercentEncoding.EncodeURIComponent | packages/cloudflare-kv-adaptor/src/index.ts:247-249 | an encoded key holds only unreserved characters and '%', so never '/', '?', '#' or '&' |
| PercentEncoding.DecodeEncodeURIComponent | packages/cloudflare-kv-adaptor/src/index.ts:263-265 | `decodeURIComponent` gives back every key that `encodeURIComponent` encoded |
| PercentEncoding.EncodeURIComponentUnreserved | packages/cloudflare-kv-adaptor/src/index.ts:279-281 | a key made only of unreserved characters is sent unchanged |
| PercentEncoding.EncodeURIComponentAppend | packages/cloudflare-kv-adaptor/src/index.ts:300-302 | encoding works character by character: the encoding of a concatenation is the concatenation of the encodings |
| PercentEncoding.EncodeURIComponentExample | packages/cloudflare-kv-adaptor/src/__tests__/index.test.ts:222-227 | the key `key!:` is encoded as `key!%3A` |
| PercentEncoding.FormEncode | packages/cloudflare-kv-adaptor/src/index.ts:121-136 | a serialized parameter name or value holds no '&' or '=' and only form characters |
| PercentEncoding.FormDecodeEncode | packages/cloudflare-kv-adaptor/src/index.ts:121-136 | form decoding gives back every form-encoded string |
| PercentEncoding.FormEncodeBytesAppend | packages/cloudflare-kv-adaptor/src/index.ts:121-136 | form encoding distributes over concatenation of bytes |
| PercentEncoding.FormEncodeSafe | packages/cloudflare-kv-adaptor/src/index.ts:121-136 | names and values made of the serializer's safe characters are sent unchanged |
| Decimal.NatToString | packages/cloudflare-kv-adaptor/src/index.ts:129-132 | a natural number prints as digits only, with no leading zero unless it is 0 |
| Decimal.IntToString | packages/cloudflare-kv-adaptor/src/index.ts:225-227 | an integer prints with a leading '-' exactly when it is negative |
| Decimal.ParseIntToString | packages/cloudflare-kv-adaptor/src/index.ts:128-130 | the printed number parses back to the number |
| FormQuery.SerializePair | packages/cloudflare-kv-adaptor/src/index.ts:121-133 | one serialized `name=value` pair holds no '&' |
| FormQuery.Serialize | packages/cloudflare-kv-adaptor/src/index.ts:134-137 | the query string is empty exactly when no parameter is set |
| FormQuery.ParseSerialize | packages/cloudflare-kv-adaptor/src/index.ts:121-137 | parsing the serialized query gives back the parameters, in order |
| Gateway.MakeConfig | packages/cloudflare-kv-adaptor/src/index.ts:97-112 | the token and account are kept; the API base URL defaults to `https://api.cloudflare.com/client/v4` |
| Gateway.ListNamespacesParamsSent | packages/cloudflare-kv-adaptor/src/index.ts:115-133 | `direction`, `order`, `page` and `per_page` are sent exactly when truthy, each with its value, in that order; a page of 0 is not sent |
| Gateway.ListNamespacesURL | packages/cloudflare-kv-adaptor/src/index.ts:134-141 | with no option set no query is appended and the URL is the namespaces URL itself; otherwise '?' and the query are appended, and the query parses back to exactly the parameters sent |
| Gateway.ListKeysParamsSent | packages/cloudflare-kv-adaptor/src/index.ts:214-230 | `cursor`, `limit` and `prefix` are sent exactly when truthy, each with its value, in that order |
| Gateway.ListKeysURL | packages/cloudflare-kv-adaptor/src/index.ts:231-238 | with no option set no query is appended to the keys URL; otherwise '?' and the query are appended, and the query parses back to the parameters sent |
| Gateway.KeySegmentRoundTrip | packages/cloudflare-kv-adaptor/src/index.ts:242-287 | in the value and metadata URLs the key is exactly the last path segment, encoded, and it decodes back to the key |
| Gateway.NamespaceSegmentRaw | packages/cloudflare-kv-adaptor/src/index.ts:159-169 | the namespace ID is put into the URL unescaped: an ID without '/' is the last segment of the namespace's URL as it is |
| Gateway.WriteStylesDiffer | packages/cloudflare-kv-adaptor/src/index.ts:290-311 | the two copies of `writeKeyWithMetadata` PUT to the value URL; the adaptor's copy sends a form with only the Authorization header, the client's copy sends JSON with the base headers |
| Gateway.CreateNamespaceRequest | packages/cloudflare-kv-adaptor/src/index.ts:145-156 | `createNamespace` POSTs the title as JSON with the base headers, to the URL `listNamespaces` uses when no option is set |
| Gateway.NamespaceRequests | packages/cloudflare-kv-adaptor/src/index.ts:159-211 | `removeNamespace` DELETEs with no body; `renameNamespace` PUTs the same JSON title `createNamespace` sends; rename and remove share the namespace's URL; `deleteKeys` (DELETE) sends the keys and `bulkWrite` (PUT) the entries, both to its `/bulk` endpoint; all carry the base headers, whatever the ID |
| Gateway.KeyRequests | packages/cloudflare-kv-adaptor/src/index.ts:242-287 | `readKey` and `readMetadata` GET and `deleteKey` DELETEs, all with the base headers and no body; read and delete share the value URL, and the metadata URL differs only in its resource segment |
| Gateway.ReadKeyExample | packages/cloudflare-kv-adaptor/src/__tests__/index.test.ts:270-276 | reading key `key!:` of namespace `namespace-id` targets `https://api.cloudflare.com/client/v4/accounts/account-id/storage/kv/namespaces/namespace-id/values/key!%3A` |
| Backend.AsErrorItems | packages/cloudflare-kv-adaptor/src/index.ts:512-514 | every server error of a failed read's body is reported, in order |
| Backend.CollectLoadErrors | packages/cloudflare-kv-adaptor/src/index.ts:493-531 | the aggregated errors are, in order: the value read's rejection, the metadata read's rejection, the value body's errors, the metadata body's errors |
| Backend.ReadSwitchNeedsBoth | packages/cloudflare-kv-adaptor/src/index.ts:487-542 | `get` yields a switch exactly when both reads succeed and the metadata body parses; the switch is the value text with the metadata `result`; any failed read gives the aggregated errors |
| Backend.UnparsableBodyAddsNothing | packages/cloudflare-kv-adaptor/src/index.ts:507-518 | a failed read whose body does not parse contributes no error, whether it is the value read or the metadata read |
| Backend.BothRejected | packages/cloudflare-kv-adaptor/src/index.ts:501-506 | when both reads are rejected, the errors are the two reasons, value first |
| KVAdaptor.FirstIndexWithTitle | packages/cloudflare-kv-adaptor/src/index.ts:404 | the position found holds the title, and no earlier entry has it |
| KVAdaptor.FirstWithTitle | packages/cloudflare-kv-adaptor/src/index.ts:404-408 | a namespace is found on a page exactly when the page has one with that title; the one found has that title and no earlier entry on the page has it |
| KVAdaptor.ListCalls | packages/cloudflare-kv-adaptor/src/index.ts:375-379 | the search's list calls ask for consecutive pages in ascending title order |
| KVAdaptor.FindSpec | packages/cloudflare-kv-adaptor/src/index.ts:373-413 | the search lists at least one page |
| KVAdaptor.FindSpecBound | packages/cloudflare-kv-adaptor/src/index.ts:409-411 | the search never lists more than one page past the last page of the listing |
| KVAdaptor.FindSpecSound | packages/cloudflare-kv-adaptor/src/index.ts:404-408 | a namespace the search returns has the title asked for and is on the last page it listed |
| KVAdaptor.ScanWellFormed | packages/cloudflare-kv-adaptor/src/index.ts:395-412 | on a well-formed page the scan returns the first namespace with the title, else asks for the next page, or fails with "Unable to find namespace" on the last page |
| KVAdaptor.FindStopsAt | packages/cloudflare-kv-adaptor/src/index.ts:373-413 | when the pages before page N are well formed without the title and page N stops the scan, the search fails with that page's error after listing each page up to N once |
| KVAdaptor.FindFailsOnBadPage | packages/cloudflare-kv-adaptor/src/index.ts:381-403 | after well-formed pages without the title, a rejected page fails with its reason, a failure status fails with "Unable to list namespaces" and the page's payload, and an empty page fails with "Unable to find namespaces in the response" |
| KVAdaptor.FindFirstOccurrence | packages/cloudflare-kv-adaptor/src/index.ts:373-413 | on a well-formed listing whose first page with the title is page N, the search returns the first namespace there with that title after exactly N list calls |
| KVAdaptor.FindExhausted | packages/cloudflare-kv-adaptor/src/index.ts:409-412 | on a well-formed listing without the title, the search lists every page once and fails with "Unable to find namespace" |
| KVAdaptor.InitFallsBackOnTitleInUse | packages/cloudflare-kv-adaptor/src/index.ts:434-442 | a failed create whose errors are all 10014, including none at all, resolves as the search from page 1 does |
| KVAdaptor.InitAdoptsCreatedID | packages/cloudflare-kv-adaptor/src/index.ts:422-461 | a successful create adopts the ID of the namespace in its `result` and lists nothing; a rejected create, or a successful one without a parsable `result`, fails and lists nothing |
| KVAdaptor.InitRejectsOtherErrors | packages/cloudflare-kv-adaptor/src/index.ts:425-436 | a failed create with any other error code fails with "Unable to create namespace" and lists nothing; an unparsable body fails with the `unknown` payload |
| KVAdaptor.InitFindsExistingNamespace | packages/cloudflare-kv-adaptor/src/index.ts:415-442 | when the title is in use and first appears on page N, `init` adopts that namespace's ID after exactly N list calls |
| KVAdaptor.CloudflareKVAdaptor.constructor | packages/cloudflare-kv-adaptor/src/index.ts:365-371 | a new adaptor is uninitialized, has no namespace ID and has made no request |
| KVAdaptor.CloudflareKVAdaptor.FindNamespace | packages/cloudflare-kv-adaptor/src/index.ts:373-413 | the loop returns what the search specification returns, after making exactly its list calls |
| KVAdaptor.CloudflareKVAdaptor.Init | packages/cloudflare-kv-adaptor/src/index.ts:415-462 | once initialized, `init` makes no request; otherwise it makes one create call plus the search's list calls; it sets the ID and the flag together on success, and changes neither on failure |
| KVAdaptor.CloudflareKVAdaptor.Get | packages/cloudflare-kv-adaptor/src/index.ts:472-543 | without a namespace ID it fails with "not initialized" and makes no request; otherwise it makes the value read and then the metadata read, and returns a switch or fails as `ReadSwitch` says |
| KVAdaptor.CloudflareKVAdaptor.Set | packages/cloudflare-kv-adaptor/src/index.ts:555-580 | shares `get`'s guard; makes exactly one write with metadata defaulting to `{}`, sent as a PUT to the value URL with only the Authorization header and a multipart form of value and metadata; fails on a rejection, and with the body's payload on a failure status |
| SwitchKitClient.InitEffectOf | packages/switch-kit/src/index.ts:379-418 | a create sets the ID, that of the namespace in `result`, exactly when it succeeds with a parsable `result`; exactly a failure status is logged, with its payload; every other failure is silent |
| SwitchKitClient.WrittenSwitch | packages/switch-kit/src/index.ts:518-544 | a written switch keeps its value and carries metadata, `{}` when none was given |
| SwitchKitClient.SwitchKit.constructor | packages/switch-kit/src/index.ts:365-373 | a new client has an empty cache, is uninitialized, and has made no request and logged nothing |
| SwitchKitClient.SwitchKit.Init | packages/switch-kit/src/index.ts:375-419 | once initialized, `init` makes no request; otherwise it makes one create call and never fails; success sets the ID and the flag together; a failure status logs exactly one message; other failures change nothing |
| SwitchKitClient.SwitchKit.Get | packages/switch-kit/src/index.ts:429-506 | the "not initialized" check comes before the cache; a cached key is answered with no request; a miss makes both reads; it caches and returns the switch on success; on a failed read it logs once and returns "not found" with the cache unchanged |
| SwitchKitClient.SwitchKit.Set | packages/switch-kit/src/index.ts:518-550 | shares the guard; makes exactly one write, sent as a PUT to the value URL with the base headers and a JSON body of value and metadata; only a successful write updates the cache, at that key only, with metadata defaulting to `{}`; a failure status logs once |
| SwitchKitClient.SwitchKit.ClearCache | packages/switch-kit/src/index.ts:555-557 | the cache becomes empty and nothing else changes |
| SwitchKitClient.SetThenGet | packages/switch-kit/src/__tests__/index.test.ts:170-186 | a `get` after a successful `set` returns the written switch with `{}` metadata from the cache, with no request beyond the write |
| SwitchKitClient.ClearThenGet | packages/switch-kit/src/__tests__/index.test.ts:209-235 | after `clearCache`, a `get` of a key that was cached goes back to the backend with both reads |

## Left out

- The network, `Headers`, `FormData` and the multipart boundary are left out. A request is modelled by its method, URL, lower-case header names and the kind of body it carries.
- `fetch` and the optional `fetch` option are left out; answers are parameters.
- JSON text and `JSON.stringify` formatting are left out. Parsing is modelled as either success with the fields the code reads, or failure. Error messages keep only their fixed prefixes and the data they report.
- Bodies of shapes other than the one the code casts to are left out, such as a JSON `null` or a non-array `errors`. The runtime errors they would cause are modelled only where the cast shape allows them, as `MalformedBody`.
- `Promise.allSettled` and `Promise.all` concurrency is left out. The two reads of `get` are two independent answers that are both observed. The `calls` log records the value read before the metadata read.
- Racing concurrent `init` calls are left out, because calls are modelled one at a time.
- Numbers in metadata and options are modelled as integers. Floating point, `NaN` and exponent notation are left out.
- `new URL` normalisation of the API base URL is left out; the base URL is used as given.
- The `StorageAdaptor` and `Storage` interfaces have no declaration of their own. The two classes share the signatures of `Get` and `Set`, and the client adds `ClearCache`. Their `Init` methods differ: the adaptor's takes the listing answers for its fallback search and returns its failure, while the client's takes only the create answer and never fails. Nothing checks that another adaptor conforms.
- The `CloudflareKV` copy inside packages/switch-kit/src/index.ts is the same builder set. `WriteStyle` selects its JSON write.
- The builders the adaptor and client never call are modelled as functions: `removeNamespace`, `renameNamespace`, `deleteKeys`, `bulkWrite`, `listKeys` and `deleteKey`. They have no method around them.
- The React pages under apps/docs are not part of this model.
- `listNamespaces` and `listKeys` pass their URL through `new URL(...)` and `url.toString()` (packages/cloudflare-kv-adaptor/src/index.ts:134 and :231), which re-serialises the whole URL. An account ID or namespace ID holding a space, '#', '?', '"', '<', '>', '{', '}' or '`' would be percent-encoded or split there. The model puts both IDs into the URL as given.
- JavaScript strings are UTF-16, and a lone surrogate makes `encodeURIComponent` throw `URIError`. A Dafny `char` is a Unicode scalar value and cannot hold a lone surrogate, so that error path is left out.
- `Payload` keeps only the `errors` field of a failed response's body. The source stringifies the whole parsed body into its error message, including any other fields.
- KVAdaptor.CloudflareKVAdaptor.FindNamespace: it requires `page >= 1`, which every call in the source satisfies (`init` starts at 1 and the search only goes up). A page of 0 would not be sent and would list page 1.
- KVAdaptor.FindSpec: a page past the end of the `Listing` is answered as a successful, empty page. The search therefore stops there with "Unable to find namespaces in the response".
- SwitchKitClient.SwitchKit.Init: it follows the client's own code, which has no fallback for a title already in use. A failed create is logged and leaves the client uninitialized.
- SwitchKitClient.SwitchKit.Set: a rejected write is swallowed without a log, as the client's code does. The client's tests construct it with an `adaptor:` option that this code does not accept, so the tests that log on a plain thrown error describe a different client.
