# elastic-client: a Dafny model of `ElasticClient`

`ElasticClient` is a promise-based wrapper around the `elasticsearch` npm client. Almost every
method only renames its arguments and forwards them to the wrapped client. This project models the
parts of `lib/ElasticClient.js` that hold logic of their own:

- **Construction.** Options that name neither `host` nor `hosts` are rejected with
  "Must specify hosts". The liveness-check interval is raised to at least 5000 ms. A new client
  starts with `isActive = true` and `isInit = true` (module `Client`).
- **The liveness state machine.** `_resolvePing` takes one probe outcome, updates `isActive` and
  `isInit`, and may emit a `ready` or `down` event. `ping()` and the background check `_livenessCheck`
  both go through it. Module `Liveness` states the transition as a pure function `Resolve` and
  replays it over any sequence of outcomes (`Replay`). Class `Client.ElasticClient` keeps the two
  flags as mutable fields and the emitted events as a ghost log. Its methods are proved to
  implement `Resolve` and to keep the flags consistent with the log.
- **Response reshaping.** `_mapMultiSearch` classifies each multi-search sub-response. It is a loop
  and is modelled as a method proved against `Classify`. `_mapAllHits` projects hits to their
  `_source`. `_formatResponse` builds the search summary (module `Responses`).

The main result is a property of the state machine. An event is emitted exactly when the pair
(`isActive`, `isInit`) changes. It follows that, from a new client and over any sequence of probes,
`ready` and `down` strictly alternate, and `isInit` holds exactly until the first `ready`. Because a
new client counts as active, a failing first probe emits `down` before any `ready`.

A probe outcome is an argument: `None`/`Resolved(response)` for success, `Some(e)`/`Rejected(e)` for
failure with error `e`. JSON payloads (stored documents, aggregations, probe responses, errors) are
type parameters and are passed through untouched.

## Model

| member | source | states |
|---|---|---|
| `Client.Create` | lib/ElasticClient.js:31-37 | Construction fails with `MustSpecifyHosts` exactly when the options are missing or name neither a non-empty `host` nor a `hosts` list. Otherwise the new client is active, initialising, has emitted nothing, and stores the clamped interval. |
| `Client.ClampInterval` | lib/ElasticClient.js:38 | The stored interval is at least 5000 and at least the requested one, and it equals one of the two: `max(requested, 5000)`. |
| `Client.ElasticClient.constructor` | lib/ElasticClient.js:36-38 | Given a host, the client starts with `isActive` and `isInit` both true, an empty event log and the clamped interval. |
| `Client.ElasticClient.ResolvePing` | lib/ElasticClient.js:521-535 | The flags move as `Resolve` says, the log grows by exactly the event `Resolve` emits, and the flags stay consistent with the log. |
| `Client.ElasticClient.Ping` | lib/ElasticClient.js:52-62 | Applies the same transition as `ResolvePing` to the probe's outcome, then returns the probe's response or error unchanged. |
| `Client.ElasticClient.LivenessCheck` | lib/ElasticClient.js:513-519 | The background check applies the same transition to the probe's outcome and returns nothing. |
| `Liveness.Resolve` | lib/ElasticClient.js:521-535 | An event is emitted exactly when the state changes. On failure, `down` carrying the error is emitted iff the client was active, and `isInit` is untouched. On success, `ready` is emitted iff the client was inactive or initialising. Afterwards `isActive` equals "the probe succeeded", and a success clears `isInit`. |
| `Liveness.Replay` | lib/ElasticClient.js:521-535 | Over a sequence of probes, each probe emits at most one event. |
| `Liveness.ResolveKeepsConsistent` | lib/ElasticClient.js:521-535 | One transition keeps the flags consistent with the event log. The log stays alternating, the last event tells the state, and `isInit` holds iff no `ready` was emitted. |
| `Liveness.ReplayKeepsConsistent` | lib/ElasticClient.js:521-535 | The same consistency holds after any sequence of probes, whatever consistent state and log it starts from. |
| `Liveness.EventsAlternate` | lib/ElasticClient.js:521-535 | From a new client: `ready` and `down` strictly alternate, and `isInit` holds iff no `ready` has been emitted. No events means the state is still the initial one. Otherwise the client is active iff the last event was `ready`. |
| `Liveness.InitNeverReturns` | lib/ElasticClient.js:528-534 | Once `isInit` is false, no sequence of probes makes it true again. |
| `Liveness.RepeatedOutcomeEmitsOnce` | lib/ElasticClient.js:521-535 | After any history, two consecutive probes of the same kind (both failed or both succeeded) add at most one event. |
| `Liveness.FirstFailureEmitsDown` | lib/ElasticClient.js:522-527 | Because `isActive` starts true (line 36), a new client whose first probe fails emits `down` with that error as its first event, before any `ready`. |
| `Responses.Classify` | lib/ElasticClient.js:483-494 | Precedence for one sub-response: an error gives `{error: type, index}`, then aggregations, then the first hit's `_source` when there are hits. Otherwise the entry is an "empty response" error carrying its index. |
| `Responses.MapMultiSearch` | lib/ElasticClient.js:475-498 | Absent input gives absent output. Otherwise there is one entry per sub-response, in order. Entry `i` depends only on sub-response `i` and `i`, and error entries carry `index = i`. |
| `Responses.Sources` | lib/ElasticClient.js:504-506 | Each hit is mapped to its `_source`, keeping length and order. |
| `Responses.MapAllHits` | lib/ElasticClient.js:500-507 | Absent hits are returned as absent. Otherwise the result lists every hit's `_source`, in the same order and with the same length. |
| `Responses.FormatResponse` | lib/ElasticClient.js:466-473 | `aggregations`, `hits.total` and `took` are copied unchanged, and `hits` becomes the hits' `_source` documents in order. A response without `hits` fails, because reading `hits.total` throws. |

## Left out

- Index, template, alias, mapping, document, search, msearch, count and bulk methods (lib/ElasticClient.js:71-464): they only forward their arguments to the wrapped `elasticsearch` client. Their local logic is limited to `create: options.create || false` and `createIndex` wrapping its result as `{exists: false, response}`. The reshaping they call (`_formatResponse`, `_mapMultiSearch`) is modelled.
- The wrapped `elasticsearch.Client`, `client.ping()`, `close()` and the merge of `DEFAULTS` into the options (lib/ElasticClient.js:12-24, 39-40): these are foreign library calls. A probe's outcome is an argument of the model.
- The `setInterval` timer and overlapping background probes (lib/ElasticClient.js:537-541): each probe completion is modelled as one sequential `LivenessCheck` or `ResolvePing` call. The constructor's first probe (line 45) is modelled the same way, as a later `LivenessCheck`.
- Promises and the `EventEmitter`: emission is an append to a ghost event log. The `ready` event's argument, the wrapped client, is the same on every emission and is not recorded.
- Client.ClampInterval: takes an integer interval. A missing interval makes `Math.max(undefined, 5000)` yield `NaN` in the source, and that case is not modelled.
- Client.ElasticClient.constructor: requires options that name a host. The rejection of options without one is modelled by `Client.Create`.
- Client.ElasticClient.ResolvePing: a probe rejected with a falsy reason (such as `0`) counts as a success in the source, because `_resolvePing` tests the error's truthiness. The model treats every rejection as a failure.
- Client.SpecifiesHosts: `hosts` is modelled as a list of strings. The source also accepts other truthy values there.
- Responses.MapMultiSearch: a sub-response whose `hits` object lacks its `hits` array would throw in the source. That case cannot be represented, because `HitsBlock.hits` is always present. Fields of hits and errors other than `_source` and `type` are not modelled.
- Responses.FormatResponse: `hits.total` and `took` are modelled as integers. The source copies whatever values are there.
