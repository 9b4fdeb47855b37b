/** `SwitchKit`: the feature-switch client. It keeps switches read or written
    through it in an in-memory cache, and turns backend failures into a
    logged message and "not found" (for `get`) or nothing (for `set` and
    `init`). The builder calls it makes are recorded in the ghost `calls`,
    and what it writes with `console.error` in the ghost `log`. */
module SwitchKitClient {
  import opened Wrappers
  import opened StorageInterface
  import opened Backend
  import G = Gateway

  /** A `console.error` message, by its fixed prefix and what it reports. */
  datatype LogEntry =
    | InitFailed(statusText: string, payload: Payload)  // "Failed to initialize SwitchKit client: Unable to create namespace: ..."
    | GetFailed(key: string, errors: seq<ErrorItem>)    // "Unable to get switch \"key\": Failed to load switch value and/or metadata ..."
    | SetFailed(key: string, payload: Payload)          // "Unable to set switch: key ... Failed to write key with metadata ..."

  /** What `init` makes of the answer to `createNamespace`: the new ID, a
      logged failure, or a failure it swallows without a log (a rejected
      fetch, an unparsable body, a body without `result`). */
  datatype InitEffect = Resolved(id: string) | Logged(entry: LogEntry) | Swallowed

  function InitEffectOf(reply: Outcome<Namespace>): (e: InitEffect)
    ensures e.Resolved? <==> Succeeded(reply) && reply.response.json.Some? && reply.response.json.value.result.Some?
    ensures e.Logged? <==> reply.Fulfilled? && !reply.response.ok
    ensures e.Resolved? ==> e.id == reply.response.json.value.result.value.id
    ensures e.Logged? ==> e.entry == InitFailed(reply.response.statusText, PayloadOf(reply.response))
  {
    match reply
    case Rejected(_) => Swallowed
    case Fulfilled(resp) =>
      if !resp.ok then Logged(InitFailed(resp.statusText, PayloadOf(resp)))
      else match resp.json
        case None => Swallowed
        case Some(env) =>
          match env.result
          case None => Swallowed
          case Some(ns) => Resolved(ns.id)
  }

  /** The switch `set` caches after a successful write. */
  function WrittenSwitch(value: string, metadata: Option<SwitchMetadata>): (sw: Switch)
    ensures sw.value == value && sw.metadata.Some?
    ensures metadata.Some? ==> sw.metadata == metadata
    ensures metadata.None? ==> sw.metadata == Some(map[])
  {
    Switch(value, Some(MetadataOrEmpty(metadata)))
  }

  class SwitchKit {
    const kv: G.Config
    /** The title of the namespace that holds the switches. */
    const namespace: string
    /** `set` sends its value and metadata as one JSON body. */
    const style: G.WriteStyle := G.JsonWrite
    var cache: map<string, Switch>
    var namespaceID: Option<string>
    var initialized: bool
    /** Every request issued so far, in order, as the builder call that made
        it; `G.RequestFor(kv, style, c)` is the request itself. */
    ghost var calls: seq<G.Call>
    /** Every `console.error` message so far, in order. */
    ghost var log: seq<LogEntry>

    ghost predicate Valid()
      reads this
    {
      initialized ==> namespaceID.Some?
    }

    constructor (namespace: string, authToken: string, accountID: string, apiBaseURL: Option<string>)
      ensures kv == G.MakeConfig(authToken, accountID, apiBaseURL) && this.namespace == namespace
      ensures cache == map[] && namespaceID.None? && !initialized
      ensures calls == [] && log == []
      ensures Valid()
    {
      kv := G.MakeConfig(authToken, accountID, apiBaseURL);
      this.namespace := namespace;
      cache := map[];
      namespaceID := None;
      initialized := false;
      calls := [];
      log := [];
    }

    /** The guard of `get` and `set`: initialized, with a non-empty namespace ID. */
    predicate Ready()
      reads this
    {
      initialized && namespaceID.Some? && namespaceID.value != ""
    }

    /** `init`: a no-op once initialized; otherwise one create request. It
        never fails: a failure status is logged once, anything else that
        goes wrong is swallowed, and both leave the client uninitialized. */
    method Init(createReply: Outcome<Namespace>)
      requires Valid()
      modifies this`namespaceID, this`initialized, this`calls, this`log
      ensures Valid()
      ensures old(initialized) ==>
        initialized && namespaceID == old(namespaceID) && calls == old(calls) && log == old(log)
      ensures !old(initialized) ==> calls == old(calls) + [G.CreateNamespaceCall(namespace)]
      ensures !old(initialized) ==>
        match InitEffectOf(createReply)
        case Resolved(id) => initialized && namespaceID == Some(id) && log == old(log)
        case Logged(entry) => !initialized && namespaceID == old(namespaceID) && log == old(log) + [entry]
        case Swallowed => !initialized && namespaceID == old(namespaceID) && log == old(log)
    {
      if initialized {
        return;
      }
      calls := calls + [G.CreateNamespaceCall(namespace)];
      match createReply {
        case Rejected(_) =>
        case Fulfilled(resp) =>
          if !resp.ok {
            log := log + [InitFailed(resp.statusText, PayloadOf(resp))];
          } else {
            match resp.json {
              case None =>
              case Some(env) =>
                match env.result {
                  case None =>
                  case Some(ns) =>
                    namespaceID := Some(ns.id);
                    initialized := true;
                }
            }
          }
      }
    }

    /** `get`: the cached switch if there is one, without any request;
        otherwise read the value and the metadata, and cache the switch when
        both reads succeed. A failed read is logged and yields "not found". */
    method Get(key: string, valueReply: ValueReply, metadataReply: MetadataReply)
      returns (r: Result<Option<Switch>, Failure>)
      modifies this`cache, this`calls, this`log
      ensures !old(Ready()) ==>
        r == Err(NotInitialized) && cache == old(cache) && calls == old(calls) && log == old(log)
      ensures old(Ready()) && key in old(cache) ==>
        r == Ok(Some(old(cache)[key])) && cache == old(cache) && calls == old(calls) && log == old(log)
      ensures old(Ready()) && key !in old(cache) ==>
        calls == old(calls) + [G.ReadKeyCall(namespaceID.value, key), G.ReadMetadataCall(namespaceID.value, key)]
      ensures old(Ready()) && key !in old(cache) ==>
        match ReadSwitch(valueReply, metadataReply)
        case Ok(sw) => r == Ok(Some(sw)) && cache == old(cache)[key := sw] && log == old(log)
        case Err(LoadFailed(errors)) => r == Ok(None) && cache == old(cache) && log == old(log) + [GetFailed(key, errors)]
        case Err(_) => r == Ok(None) && cache == old(cache) && log == old(log)
    {
      if !initialized || namespaceID.None? || namespaceID.value == "" {
        return Err(NotInitialized);
      }
      if key in cache {
        return Ok(Some(cache[key]));
      }
      var id := namespaceID.value;
      calls := calls + [G.ReadKeyCall(id, key), G.ReadMetadataCall(id, key)];
      if valueReply.Rejected? || metadataReply.Rejected? || !valueReply.response.ok || !metadataReply.response.ok {
        var errors := CollectLoadErrors(valueReply, metadataReply);
        log := log + [GetFailed(key, errors)];
        return Ok(None);
      }
      match metadataReply.response.json {
        case None =>
          r := Ok(None);
        case Some(env) =>
          var sw := Switch(valueReply.response.text, env.result);
          cache := cache[key := sw];
          r := Ok(Some(sw));
      }
    }

    /** `set`: one JSON write; the cache takes the switch only after a
        successful write, and a failure status is logged. */
    method Set(key: string, value: string, metadata: Option<SwitchMetadata>, writeReply: Outcome<()>)
      returns (r: Result<(), Failure>)
      modifies this`cache, this`calls, this`log
      ensures !old(Ready()) ==>
        r == Err(NotInitialized) && cache == old(cache) && calls == old(calls) && log == old(log)
      ensures old(Ready()) ==>
        r == Ok(()) && calls == old(calls) + [G.WriteKeyWithMetadataCall(namespaceID.value, key, value, MetadataOrEmpty(metadata))]
      ensures old(Ready()) ==>
        G.RequestFor(kv, style, calls[|calls| - 1])
        == G.Request(G.PUT, G.KeyURL(kv, namespaceID.value, "values", key), G.BaseHeaders(kv),
                     G.JsonValueAndMetadata(value, MetadataOrEmpty(metadata)))
      ensures old(Ready()) && Succeeded(writeReply) ==>
        cache == old(cache)[key := WrittenSwitch(value, metadata)] && log == old(log)
      ensures old(Ready()) && writeReply.Fulfilled? && !writeReply.response.ok ==>
        cache == old(cache) && log == old(log) + [SetFailed(key, PayloadOf(writeReply.response))]
      ensures old(Ready()) && writeReply.Rejected? ==> cache == old(cache) && log == old(log)
    {
      if !initialized || namespaceID.None? || namespaceID.value == "" {
        return Err(NotInitialized);
      }
      calls := calls + [G.WriteKeyWithMetadataCall(namespaceID.value, key, value, MetadataOrEmpty(metadata))];
      r := Ok(());
      match writeReply {
        case Rejected(_) =>
        case Fulfilled(resp) =>
          if !resp.ok {
            log := log + [SetFailed(key, PayloadOf(resp))];
          } else {
            cache := cache[key := WrittenSwitch(value, metadata)];
          }
      }
    }

    /** `clearCache`: forget every cached switch; nothing else changes. */
    method ClearCache()
      modifies this`cache
      ensures cache == map[]
    {
      cache := map[];
    }
  }

  /** A successful `set` followed by a `get` of the same key answers from the
      cache: the written value with its (defaulted) metadata, and no request
      beyond the write. */
  method SetThenGet(kit: SwitchKit, key: string, value: string, metadata: Option<SwitchMetadata>,
                    writeReply: Outcome<()>, valueReply: ValueReply, metadataReply: MetadataReply)
    returns (r: Result<Option<Switch>, Failure>)
    requires kit.Ready() && Succeeded(writeReply)
    modifies kit`cache, kit`calls, kit`log
    ensures r == Ok(Some(Switch(value, Some(MetadataOrEmpty(metadata)))))
    ensures |kit.calls| == |old(kit.calls)| + 1
  {
    var _ := kit.Set(key, value, metadata, writeReply);
    r := kit.Get(key, valueReply, metadataReply);
  }

  /** After `clearCache`, a `get` of a key that was cached goes back to the
      backend with both reads. */
  method ClearThenGet(kit: SwitchKit, key: string, valueReply: ValueReply, metadataReply: MetadataReply)
    returns (r: Result<Option<Switch>, Failure>)
    requires kit.Ready() && key in kit.cache
    modifies kit`cache, kit`calls, kit`log
    ensures kit.Ready()
    ensures kit.calls == old(kit.calls) + [G.ReadKeyCall(kit.namespaceID.value, key), G.ReadMetadataCall(kit.namespaceID.value, key)]
  {
    kit.ClearCache();
    r := kit.Get(key, valueReply, metadataReply);
  }
}
