# hyperspace-mirroring-service, modelled in Dafny

This project models the core of the Hyperspace mirroring service. The service
decides which hypercores and hyperdrives are kept fully downloaded
("mirrored"). It records that intent durably so it survives a restart, and it
takes mirror, unmirror, status, list and stop commands over a small RPC
protocol.

The centre of the model is the bookkeeping of `MirroringService` (server.js).
It keeps four pieces of state:

- `mirroring`: the set of mirrored key strings;
- `downloads`: a map from key string to a `{core, request}` download handle;
- `cores`: a persisted, ordered Hyperbee region holding one `{}` per key to
  mirror again on restart;
- `types`: a persisted, ordered Hyperbee region holding the `type` each
  `_mirror` call asked for.

The model has two layers:

- `MirrorSpec` (mirror_spec.dfy) describes each operation as a function from
  the state before to the state after. Its lemmas state what the operations
  promise.
- `MirroringServer.MirroringService` (mirroring_service.dfy) is a class with
  those fields. Its methods update the fields step by step, as the JavaScript
  does. Each method is proved to follow the matching `MirrorSpec` function
  and to keep the invariant.

The invariant (`MirrorSpec.Inv`) says:

- the domain of `downloads` is `mirroring`;
- `mirroring` is a subset of the keys of `cores`;
- each handle belongs to its own key's core;
- each handle holds a distinct download request that is still outstanding.

The external engines are abstract:

- `core.download()` and `core.undownload()` allocate and release numbered
  request tokens (`live`, `nextToken`).
- `replicate(core)` and `network.configure(discoveryKey, {announce: false})`
  are recorded, in order, as `Effect`s. The core's key string stands in for
  its discovery key.
- The drive engine is a `DriveResolver`: a map from a drive key to its
  content core key. A drive's metadata core key is the drive key itself.
  `_unmirrorDrive` relies on this when it looks up `downloads` under the
  drive key. A drive missing from the map is one whose `getContent` fails.
- The Hyperbee regions are sorted association lists (`OrderedStore.Store`).
  Their keys are strictly ascending in byte order, which for hex keys is
  character order. Both `_list` and `_restartMirroring` walk them in that
  order.

The model also covers:

- key normalisation (hex_keys.dfy): `toString('hex')` and
  `Buffer.from(s, 'hex')`;
- the RPC session's pure decisions (rpc.dfy): the error decode, the
  stream-teardown test, the error re-emit rule, the method table of service 1,
  `onRequest` and the request/requestNoReply pairs.

The model keeps three quirks of the code:

- Re-mirroring a key overwrites its handle without undownloading the old one.
  The old request stays outstanding, even after `_close`
  (`MirrorSpec.RemirrorLeaksRequest`).
- An absent `type` is written into `types` as it is (`None`).
- A `type` other than `hypercore` or `hyperdrive` mirrors nothing, but it is
  still recorded.

Some consequences of the code that the model makes explicit:

- `_list` reports `mirroring: true` for every `types` entry. So a key that is
  not otherwise mirrored and is recorded with an unrecognised type is listed as
  mirroring, while `_mirror` and `_status` say false
  (`MirrorSpec.OtherKindListedNotMirroring`). A key already mirrored as a core
  keeps its download, so then all three say true.
- When `type` is falsy, a core is mirrored and the falsy `type` itself is
  stored; no default type is substituted.
- `_mirror` and `_unmirror` decode a hex-string key and re-encode it in lower
  case, but `_status` uses a string key as given. A core mirrored under an
  upper-case hex key is reported as not mirroring by `_status` with that same
  key (`MirrorSpec.StatusDisagreesOnUpperCase`).
- `_mirror` twice leaves `mirroring`, the `downloads` domain and both regions
  as `_mirror` once did, and returns the same status
  (`MirrorSpec.MirrorIdempotent`). The outstanding download requests and the
  replication calls are not idempotent: each call takes new requests.
- `_unmirror` of a key with no download and no recorded type changes nothing
  (`MirrorSpec.UnmirrorAbsent`), and a second successful `_unmirror` changes
  nothing (`MirrorSpec.UnmirrorIdempotent`).

`Buffer.from(s, 'hex')` follows Node's decoder:

- it decodes digit pairs from the front;
- it accepts upper-case digits;
- it stops at the first pair holding a non-hex character;
- it drops an odd trailing digit.

## Model

| member | source | states |
|---|---|---|
| `HexKeys.ToHex` | server.js:90 | the hex text of a buffer is two lower-case digits per byte (canonical hex, twice the length) |
| `HexKeys.FromHex` | server.js:137 | decoding yields at most half as many bytes as characters, and exactly half when every character is a hex digit |
| `HexKeys.FromHexToHex` | server.js:137-140 | every buffer round-trips through `toString('hex')` and `Buffer.from(_, 'hex')` |
| `HexKeys.ToHexFromHex` | server.js:137-140 | every even-length lower-case hex string round-trips through `Buffer.from` and `toString('hex')` |
| `HexKeys.KeyString` | server.js:90 | a string key is used as given; a buffer key becomes canonical hex that decodes back to the buffer |
| `HexKeys.KeyBytes` | server.js:137 | a buffer key is kept; a canonical hex key decodes to bytes whose hex is the key again |
| `HexKeys.LowerCanonical` | server.js:137-140 | lower-casing even-length hex text in either case gives canonical lower-case hex |
| `HexKeys.FromHexIgnoresCase` | server.js:137 | `Buffer.from(_, 'hex')` decodes even-length hex text in either case to the same bytes as its lower-cased form |
| `HexKeys.ToHexFromHexAnyCase` | server.js:137-140 | every even-length hex string, in either case of letters, comes back from `Buffer.from` and `toString('hex')` lower-cased |
| `HexKeys.NormaliseAgrees` | server.js:137-140 | a key given as bytes and the same key given as hex text in either case normalise to the same buffer, and the byte key's key string is the text lower-cased |
| `HexKeys.UpperCaseNormalised` | server.js:137-140 | an instance: the key "AB0f" is written back as "ab0f" |
| `HexKeys.DigitChar` | server.js:90 | each nibble becomes one lower-case hex digit that decodes back to the nibble |
| `OrderedStore.Insert` | server.js:96 | `put` keeps the region sorted, adds the key, maps it to the new value and leaves every other key's value as it was |
| `OrderedStore.Remove` | server.js:119 | `del` keeps the region sorted, removes exactly the key and leaves every other key's value as it was |
| `OrderedStore.InsertExisting` | server.js:96 | putting the value a key already holds leaves the region unchanged |
| `OrderedStore.RemoveAbsent` | server.js:148 | deleting a key the region does not hold leaves the region unchanged |
| `OrderedStore.RemoveInsert` | server.js:140-148 | deleting a key just put where it was absent restores the region |
| `OrderedStore.LookupAt` | server.js:81 | the entry a read stream yields at a position is what `get` returns for its key |
| `MirrorSpec.Resolve` | server.js:67-78 | a drive resolves exactly when the engine knows its content core; its metadata core key is the drive key |
| `MirrorSpec.Classify` | server.js:138-139 | a missing, empty or `hypercore` type selects core mirroring; `hyperdrive` selects drive mirroring; anything else selects neither |
| `MirrorSpec.MirrorCore` | server.js:86-98 | `_mirrorCore` keeps the invariant |
| `MirrorSpec.UnmirrorCore` | server.js:109-120 | `_unmirrorCore` keeps the invariant |
| `MirrorSpec.MirrorDrive` | server.js:101-107 | `_mirrorDrive` keeps the invariant, on success and on failure |
| `MirrorSpec.UnmirrorDrive` | server.js:123-134 | `_unmirrorDrive` keeps the invariant, on success and on failure |
| `MirrorSpec.StatusOf` | server.js:154-161 | the status echoes key and type; under the invariant it reports `mirroring` exactly when the key has a download, and then the key is persisted |
| `MirrorSpec.Mirror` | server.js:136-142 | `_mirror` keeps the invariant and keeps every `types` and `cores` key canonical hex |
| `MirrorSpec.Unmirror` | server.js:144-150 | `_unmirror` keeps the invariant and keeps every `types` and `cores` key canonical hex |
| `MirrorSpec.List` | server.js:163-175 | one entry per `types` entry, in store order, each with `mirroring: true`, the stored type and a key that hex-encodes back to the stored key |
| `MirrorSpec.MirrorCoreEffect` | server.js:86-98 | after `_mirrorCore` the key has a fresh outstanding request, is mirrored and is persisted; other keys and `types` are untouched |
| `MirrorSpec.MirrorCoreIdempotent` | server.js:86-98 | mirroring twice gives the same `mirroring`, `downloads` domain, `cores` and `types` as mirroring once |
| `MirrorSpec.RemirrorLeaksRequest` | server.js:91-94 | re-mirroring a mirrored key leaves its old request outstanding and unreachable, even after `_close` |
| `MirrorSpec.FreshMirrorKeepsNoLeak` | server.js:91-94 | mirroring a key not yet mirrored keeps every outstanding request reachable through `downloads` |
| `MirrorSpec.UnmirrorCoreAbsent` | server.js:109-111 | `_unmirrorCore` of a key without a download changes nothing |
| `MirrorSpec.UnmirrorCoreEffect` | server.js:112-119 | `_unmirrorCore` of a mirrored key releases its request and announces no more (unless suppressed); it removes the key from `downloads`, `mirroring` and `cores`; every other key is unchanged |
| `MirrorSpec.UnmirrorKeepsNoLeak` | server.js:112-119 | unmirroring keeps every outstanding request reachable when that held before |
| `MirrorSpec.MirrorCoreFacts` | server.js:86-98 | one `_mirrorCore` adds the key to `mirroring`, the `downloads` domain and `cores`, takes exactly the next request and leaves `types` alone |
| `MirrorSpec.MirrorDriveExpands` | server.js:101-107 | a resolvable drive mirrors exactly its metadata and content cores, replicates only the metadata core, and takes two requests |
| `MirrorSpec.MirrorDriveUnresolved` | server.js:67-78 | a drive whose content cannot be fetched fails with `ResolutionError`; only its metadata replication has happened |
| `MirrorSpec.UnmirrorDriveRemovesBoth` | server.js:123-134 | unmirroring a mirrored drive unmirrors both cores; the metadata core is unannounced twice |
| `MirrorSpec.UnmirrorDriveAbsent` | server.js:124-125 | unmirroring a drive whose key has no download changes nothing and succeeds |
| `MirrorSpec.MirrorRecordsType` | server.js:136-142 | whenever `_mirror` returns, `types` maps the normalised key to the requested type; only an unresolvable drive fails |
| `MirrorSpec.MirrorOtherKindOnlyRecords` | server.js:138-140 | an unrecognised type mirrors nothing; the only change is the type written into `types` |
| `MirrorSpec.MirrorCoreKindReportsMirroring` | server.js:136-141 | mirroring a core reports `mirroring: true`; the key is downloading and persisted; a hex-string key in either case of letters gives the same state as the bytes |
| `MirrorSpec.UnmirrorErasesType` | server.js:144-150 | whenever `_unmirror` returns, the type entry is gone; the status is true only for an unrecognised type on a key that was mirrored |
| `MirrorSpec.StatusTakesKeyAsGiven` | server.js:154-161 | when every persisted key is lower-case hex (which `_mirror` and `_unmirror` preserve), a string key that is not lower-case hex is never reported as mirroring |
| `MirrorSpec.StatusDisagreesOnUpperCase` | server.js:136-161 | a core mirrored under "AB0f" is reported mirroring by `_mirror` and not mirroring by `_status` with the same key |
| `MirrorSpec.MirrorCoreAgain` | server.js:86-98 | `_mirrorCore` of a key already downloading, mirrored and persisted leaves the sets, the `downloads` domain and both regions unchanged |
| `MirrorSpec.MirrorIdempotent` | server.js:136-142 | `_mirror` twice returns the same result and leaves `mirroring`, the `downloads` domain, `cores` and `types` as `_mirror` once, for every type |
| `MirrorSpec.UnmirrorAbsent` | server.js:144-150 | `_unmirror` of a key with no download and no recorded type leaves the state unchanged and succeeds; under the invariant it reports not mirroring |
| `MirrorSpec.UnmirrorIdempotent` | server.js:144-150 | after a successful `_unmirror`, a second one leaves the state unchanged and returns the same result |
| `MirrorSpec.ListInStoreOrder` | server.js:163-175 | listed keys come out strictly ascending, each marked mirroring |
| `MirrorSpec.OtherKindListedNotMirroring` | server.js:136-175 | for a key not otherwise mirrored, `_mirror` with an unrecognised type reports not mirroring and `_status` agrees, while `_list` shows the key with that type and `mirroring: true` |
| `MirrorSpec.ListStatusDisagreeOnOtherKind` | server.js:163-175 | an instance on the empty state: the key `[7]` mirrored with type "other" is listed as mirroring while `_mirror` reports it is not |
| `MirrorSpec.MirrorThenUnmirrorCore` | server.js:136-150 | mirroring a new core and then unmirroring it restores `types`, `cores`, `mirroring`, `downloads` and the listing; it reports true, then false |
| `MirrorSpec.DriveScenario` | server.js:101-134 | after mirroring a drive, its metadata and content cores report mirroring; after unmirroring it, neither does and its type is gone |
| `MirrorSpec.Close` | server.js:55-63 | `_close` keeps the invariant and both regions; when every outstanding request was reachable, none stays outstanding |
| `MirrorSpec.Replay` | server.js:80-84 | replaying stored keys one `_mirrorCore` at a time keeps the invariant and leaves `types` alone |
| `MirrorSpec.Restart` | server.js:80-84 | `_restartMirroring` keeps the invariant and leaves `types` alone |
| `MirrorSpec.CloseKeepsIntent` | server.js:55-63 | `_close` empties `downloads` and `mirroring` and releases every handle's request; it keeps both regions and the invariant |
| `MirrorSpec.ReplayFacts` | server.js:80-84 | replaying persisted keys leaves the regions alone and adds exactly those keys to `mirroring` |
| `MirrorSpec.RestartRebuilds` | server.js:80-84 | after `_restartMirroring`, `mirroring` and the `downloads` domain are exactly the keys of `cores` |
| `MirrorSpec.CloseThenRestartRecovers` | server.js:55-84 | shutting down and restarting a running service gives back the same mirrored set, `downloads` domain and regions |
| `MirrorSpec.MirrorCoreKeepsSynced` | server.js:86-98 | `_mirrorCore` keeps `mirroring` equal to the keys of `cores` |
| `MirrorSpec.UnmirrorCoreKeepsSynced` | server.js:109-120 | `_unmirrorCore` keeps `mirroring` equal to the keys of `cores` |
| `MirrorSpec.MirrorKeepsSynced` | server.js:136-142 | `_mirror` keeps `mirroring` equal to the keys of `cores`, for every type |
| `MirrorSpec.UnmirrorKeepsSynced` | server.js:144-150 | `_unmirror` keeps `mirroring` equal to the keys of `cores`, for every type |
| `MirroringServer.MirroringService.constructor` | server.js:16-26 | the post-open service: empty `mirroring` and `downloads`, the loaded regions, no outstanding requests, invariant holds |
| `MirroringServer.MirroringService.Download` | server.js:93 | `core.download()` returns a request not outstanding before and marks it outstanding |
| `MirroringServer.MirroringService.Undownload` | server.js:116 | `core.undownload(request)` makes that request no longer outstanding |
| `MirroringServer.MirroringService.MirrorCore` | server.js:86-98 | the fields move as `MirrorSpec.MirrorCore` says; the invariant holds |
| `MirroringServer.MirroringService.UnmirrorCore` | server.js:109-120 | the fields move as `MirrorSpec.UnmirrorCore` says; the invariant holds |
| `MirroringServer.MirroringService.MirrorDrive` | server.js:101-107 | the fields and result are as `MirrorSpec.MirrorDrive` says; the invariant holds |
| `MirroringServer.MirroringService.UnmirrorDrive` | server.js:123-134 | the fields and result are as `MirrorSpec.UnmirrorDrive` says; the invariant holds |
| `MirroringServer.MirroringService.Mirror` | server.js:136-142 | the fields and result are as `MirrorSpec.Mirror` says; the invariant holds |
| `MirroringServer.MirroringService.Unmirror` | server.js:144-150 | the fields and result are as `MirrorSpec.Unmirror` says; the invariant holds |
| `MirroringServer.MirroringService.Status` | server.js:154-161 | a read; under the invariant it reports `mirroring` exactly when the key has a download |
| `MirroringServer.MirroringService.List` | server.js:163-175 | the loop yields one `{type, key, mirroring: true}` per `types` entry, in store order |
| `MirroringServer.MirroringService.RestartMirroring` | server.js:80-84 | the loop re-mirrors every persisted key in order; afterwards `mirroring` is the key set of `cores`, which is unchanged |
| `MirroringServer.MirroringService.Close` | server.js:55-63 | the loop undownloads every handle; then `downloads` and `mirroring` are cleared and the regions kept, as `MirrorSpec.Close` says |
| `Rpc.ErrorOf` | rpc/index.js:8-16 | the rebuilt error carries exactly the record's message, code, errno and details |
| `Rpc.ErrorRoundTrip` | rpc/index.js:5-16 | encoding an error and decoding its record gives back the same four fields |
| `Rpc.ErrorEncoding.constructor` | rpc/index.js:5-8 | no record decoded yet |
| `Rpc.ErrorEncoding.Decode` | rpc/index.js:8-16 | the error has the record's four fields; `decode.bytes` is the byte count the record took |
| `Rpc.IsStreamError` | rpc/index.js:128-130 | a teardown error's message is a direction word of 8 letters followed by " stream closed prematurely" |
| `Rpc.ShouldEmit` | rpc/index.js:117 | with a listener the error is always re-emitted; the raw socket's own error is re-emitted only when someone listens |
| `Rpc.EmitRule` | rpc/index.js:116-118 | with a listener every error is re-emitted; with none, an error is re-emitted exactly when it is neither the raw socket's error nor one of the two teardown messages |
| `Rpc.TeardownMessagesExact` | rpc/index.js:128-130 | two near-miss messages are not teardown errors and are re-emitted when nobody listens |
| `Rpc.Session.constructor` | rpc/index.js:104-111 | no socket error recorded, no listeners, nothing emitted |
| `Rpc.Session.OnSocketError` | rpc/index.js:109-111 | the raw socket's error is remembered |
| `Rpc.Session.AddErrorListener` | rpc/index.js:117 | one more `'error'` listener is counted |
| `Rpc.Session.OnRpcError` | rpc/index.js:116-118 | when the re-emit rule allows, the error reaches the listeners if there are any and is thrown out of the handler if there are none; otherwise nothing happens |
| `Rpc.Definition` | rpc/index.js:21-51 | ids lie in 1 to 5; mirror, unmirror and status map `MirrorRequest` to `MirrorStatus`; list maps NULL to `ListResponse`; stop maps NULL to NULL |
| `Rpc.MethodIdsDistinct` | rpc/index.js:21-51 | the five method ids are pairwise distinct and cover 1 to 5 |
| `Rpc.RpcMethod.constructor` | rpc/index.js:23-27 | a method object carries its service and definition and has no handler |
| `Rpc.RpcMethod.Request` | rpc/index.js:62-64 | a request frame targets the method's service, id and encodings, carries the data and expects a reply |
| `Rpc.RpcMethod.RequestNoReply` | rpc/index.js:66-68 | the no-reply frame is the request frame with reply expectation off |
| `Rpc.ServiceMirror.constructor` | rpc/index.js:20-52 | five fresh, distinct method objects under service 1 with the table's definitions and no handlers |
| `Rpc.ServiceMirror.OnRequest` | rpc/index.js:54-60 | each method whose handler is supplied gets it bound to the context; every other method keeps its previous handler; handlers default to the context |
| `Rpc.ServiceMirror.Request` | rpc/index.js:62-100 | each call targets service 1 and its own method id and encodings, carries the data (none for `list` and `stop`) and expects a reply |
| `Rpc.ServiceMirror.RequestNoReply` | rpc/index.js:62-100 | each NoReply call targets service 1 and the same method id, carries the data (none for `list` and `stop`) and expects no reply |
| `Rpc.ServiceMirror.ReplyModesDiffer` | rpc/index.js:62-100 | each call and its NoReply twin differ only in reply mode |

## Left out

- Service startup (server.js:30-53) is not modelled: the "already running" probe, the Hyperspace client start, and the corestore and Hyperbee setup. It is network and storage I/O. The constructor stands for the state once the two regions are loaded.
- Hyperspace, hyperdrive and Hyperbee internals are not modelled (server.js:67-78, 89, 113). `replicate` and `network.configure` are recorded effects. Discovery-key derivation is left to the engine. Download and undownload are token allocation and release.
- Opening a core (`corestore.get`, `core.ready()`) is taken to succeed for every key, including a buffer of the wrong length. Replication-engine failures (engine unavailable) and storage write failures are not modelled. The only failure modelled is a drive whose content core cannot be fetched.
- Concurrency is not modelled. Each operation is atomic. The two branches of each `Promise.all` in `_mirrorDrive` and `_unmirrorDrive` run one after the other. The mirror/unmirror race on one key is therefore not captured.
- MirroringServer.MirroringService.Close: the order in which `_close` undownloads handles (the map's insertion order) is not modelled. Releasing requests commutes in the model.
- MirroringServer.MirroringService.Close: `server.close()` and `hsClient.close()` are not modelled (I/O).
- Event emission (`client-open`, `client-close`, `close`) and `_onConnection` are not modelled (server.js:179-191; rpc/index.js:115). They are event-emitter plumbing.
- RPC framing, the `./messages` encodings, the `maxSize` option, socket piping and `destroy` are not modelled (rpc/index.js:103-125). `./messages` is not part of this model. The error decode takes the decoded record and its byte count as inputs.
- Rpc.ServiceMirror.Request: `list()` and `stop()` take no argument. The model has one member per call mode and requires `None` as the data for those two methods rather than having separate zero-argument members.
- client.js (connect-retry loop with timers), bin/index.js (CLI, console output, signals, exit codes) and rpc/socket.js (socket option resolution) are not modelled. rpc/socket.js is not part of this model.
- Hyperbee stores keys by byte order of their UTF-8 encoding. The model orders keys by character. The two orders agree on the hex keys the service writes.
