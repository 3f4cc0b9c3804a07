# rpcJS core in Dafny

rpcJS is a small Node.js service that fetches the contents of user-supplied
URLs on behalf of a trusted web application. A cluster master (start.js)
forks HTTP workers. It scales their number with the request rate and keeps a
per-address ban list: an address that sends more than 5 requests in one
window is banned for 60 seconds. Each worker drops requests from banned
addresses and hands the rest to an RPC session (rpc.js). The session parses
the GET query or POST body, looks `method` up in its call table, runs
`getURLContents` and writes a 200, 202 or 501 response. A 501 carries the
JSON of an error record (errorObject.js).

The project models:

- the master's bookkeeping, as a class `Supervisor.Supervisor` whose methods
  change its fields as the handlers in start.js do;
- the ban table as values with its invariants (`BanTracker`);
- the worker's ban table, `checkIsAttacker` and request routing
  (`WorkerProcess`);
- the RPC session as a class `RpcServer.Rpc` driven by its events, with a
  pure `Exchange` for the whole request;
- the error record and the JSON text it carries (`ErrorObjects`, over a small
  JSON writer and reader in `Json`).

Clocks, randomness, message passing and sockets are parameters:

- `now` is the current second;
- `r` is the value of `Math.random()`;
- the decoded query or body is a `Fields` map, or None when it is not an object;
- an outbound fetch is given as its chunks or its error message.

Messages the master sends are appended to `outbox`. Workers it kills are
appended to `killed`.

Files:

- `wrappers.dfy`: `Option`.
- `messages.dfy`: the messages and connection endpoints.
- `ban_tracker.dfy`: per-address counting, banning, expiry.
- `supervisor.dfy`: the master process.
- `worker.dfy`: the worker process.
- `json.dfy`: the JSON text of strings and integers, with readers.
- `error_object.dfy`: the error record.
- `rpc.dfy`: the RPC session.

## Model

| member | source | states |
|---|---|---|
| Messages.ChargedAddressAsWritten | start.js:192 | The address charged as written, the socket's local end (also rpc.js:23), is the client's address exactly when both ends of the connection are the same. |
| BanTracker.RecordRequest | start.js:27-45 | A missing or empty address changes nothing. The named address's count goes up by one and no other count changes. A new ban starts exactly when the count passes 5 and the address has no truthy ban: the table gains the address stamped `now` and the ordered list gains it at its end (line 41). Otherwise the table and the list are unchanged. An address with a truthy ban keeps its stamp. |
| BanTracker.RecordRequestValid | start.js:27-45 | Recording a request at a nonzero second keeps the ban bookkeeping invariant: positive counters; the ordered list holds each banned address exactly once; every stamp is truthy. |
| BanTracker.RecordRequestChronological | start.js:40-41 | Bans are appended in stamp order: if no stamp is later than `now`, stamps stay non-decreasing along `attackersOrdered`. |
| BanTracker.ResetWindow | start.js:81-83 | Every address's count is 0 afterwards; the bans and their order are untouched. |
| BanTracker.ExpiredCount | start.js:97-104 | The loop's stopping point: every earlier entry has run out (`stamp + 60 < now`), and the entry it stops at has not. |
| BanTracker.Expire | start.js:94-109 | The expiry pass over a duplicate-free list: counters unchanged; the ordered list loses a prefix; every deleted ban had run out; every kept ban is unchanged. |
| BanTracker.ExpireStopsAt | start.js:97-107 | On a duplicate-free list: if the first `i` entries have run out and entry `i` has not, the pass deletes exactly those `i` bans and splices exactly `i` entries. |
| BanTracker.DropPrefixValid | start.js:105-107 | Deleting the bans of a prefix of the ordered list and splicing that prefix keeps the invariant. |
| BanTracker.ExpireValid | start.js:94-109 | The expiry pass keeps the ban bookkeeping invariant. |
| BanTracker.ExpireComplete | start.js:94-109 | With chronological bans, the pass leaves no ban that has run out, although the loop stops at the first ban still in force. |
| BanTracker.DropPrefixChronological | start.js:105-107 | Deleting a prefix of the ordered list and its bans keeps the stamps non-decreasing along the list. |
| BanTracker.ExpireChronological | start.js:94-109 | The expiry pass keeps the stamps in order along the list. |
| BanTracker.RecordRequestConsistent | start.js:27-45 | A request at a nonzero second no earlier than the last one keeps the bans consistent: the invariant, the stamp order, and no stamp later than that second. |
| BanTracker.ExpireConsistent | start.js:94-109 | The expiry pass keeps the bans consistent and leaves no ban that has run out. |
| BanTracker.Replay | start.js:27-45 | One `request` message after another in one second: no address's count goes down, and the ordered list only grows at its end. |
| BanTracker.ReplayKeepsBans | start.js:39-42 | A run of request reports never lifts a ban. |
| BanTracker.BannedIffOverLimit | start.js:28-43 | For an address not yet banned and not yet past the limit, a run of reports bans it iff its window count plus its reports in the run exceeds 5. |
| BanTracker.ReplayStamps | start.js:40 | A ban created during a run at nonzero second `now` is stamped `now`. |
| BanTracker.ReplayKeepsStamp | start.js:39 | A truthy ban is never re-stamped during a run of reports. |
| Supervisor.OverAllocated | start.js:129 | The scale-down test `requests + random × requests / 10 < workers`, for any `Math.random()` value in [0, 1). It passes only with fewer requests than workers. It always passes when 11 × requests ≤ 10 × workers (workers > 0). |
| Supervisor.TickPlan | start.js:118-140 | One tick never both starts and kills. It starts iff requests exceed workers and workers < 100. It kills iff it does not start, the tick is over-allocated, the streak counter, which only a new second or a kill resets, has reached 8 or more, workers exceed the minimum and there is a last worker; a kill resets the streak. Without a kill, the streak grows by one iff the tick does not start and is over-allocated; otherwise it stays. |
| Supervisor.TickPlanKeepsBounds | start.js:125-139 | A tick keeps the worker count within [minWorkers, max(minWorkers, 100)]. |
| Supervisor.Without | start.js:63-70 | Removing the last occurrence of a handle: unchanged if absent, otherwise exactly one shorter. |
| Supervisor.WithoutAt | start.js:63-70 | The backward scan's splice at the last match `i` is the roster without position `i`. |
| Supervisor.WithoutRemovesOne | start.js:63-70 | As multisets, the roster afterwards is the old roster minus one copy of the dead handle. |
| Supervisor.RemoveAtNoDup | start.js:67 | Splicing one entry out of a duplicate-free roster leaves it duplicate-free, without that entry, and adds no handle. |
| Supervisor.AppendFreshNoDup | start.js:55 | Pushing a fresh fork keeps the roster duplicate-free. |
| Supervisor.Broadcast | start.js:86-91 | One `updateAttackers` message per worker, carrying the current table, sent from the roster's end to its start. |
| Supervisor.Supervisor.constructor | start.js:9-18 | Empty counters and tables, then `minWorkers` forks (lines 144-146); the invariant holds. |
| Supervisor.Supervisor.StartWorker | start.js:53-59 | The new fork is appended to the roster and counted; nothing else changes. |
| Supervisor.Supervisor.HandleMessage | start.js:22-50 | `request` adds one to the request count and updates the bans as RecordRequest says. `online` sends the sender the current table. Anything else changes nothing. The invariant is kept, including the order of stamps along `attackersOrdered`; the ghost clock becomes `now`. |
| Supervisor.Supervisor.CountRequest | start.js:28-44 | The counting and banning of the `request` case leaves exactly the bans RecordRequest gives. |
| Supervisor.Supervisor.OnDeath | start.js:62-78 | The roster loses the dead worker's entry (Without). One worker is forked when that leaves fewer than the minimum. The dead worker is no longer listed. The invariant is kept. |
| Supervisor.Supervisor.ResetWindow | start.js:81-83 | The bans become BanTracker.ResetWindow of the old bans; nothing else changes. |
| Supervisor.Supervisor.Propagate | start.js:86-91 | The outbox grows by Broadcast of the roster and the current table; nothing else changes. |
| Supervisor.Supervisor.ExpireBans | start.js:94-109 | The bans become BanTracker.Expire of the old bans. Every ban left had not run out at `now`. The invariant is kept. Nothing else changes. |
| Supervisor.Supervisor.EvictExpired | start.js:96-107 | The in-place loop with its delete and splice computes exactly BanTracker.Expire. |
| Supervisor.Supervisor.Tick | start.js:113-141 | The window restarts on a new second. Forks, kills and the new streak are exactly as TickPlan says. The bans and outbox are untouched. The invariant is kept. |
| WorkerProcess.Admit | start.js:172-197 | The favicon is ignored. `/test.html` is served from the file. Any other url is dropped when the connection's local address, the one `request.connection.address().address` gives, carries a ban in force; otherwise it is handed to the RPC session. Each case is stated iff its condition. |
| WorkerProcess.Worker.constructor | start.js:4 | A worker starts with an empty ban table. |
| WorkerProcess.Worker.HandleMessage | start.js:153-157 | `updateAttackers` replaces the table wholesale; any other message leaves it. |
| WorkerProcess.CheckIsAttacker | start.js:160-170 | An address counts as banned only with a truthy stamp whose ban the expiry pass would not yet delete at that second. |
| WorkerProcess.Reports | rpc.js:23 | The corrected charging: one report per served request, in order, charged to the client's remote address. |
| WorkerProcess.ReportsAsWritten | rpc.js:23 | One report per served request, in order, charged to the socket's local address, as the code writes it. |
| WorkerProcess.OccurrencesOfReports | rpc.js:23 | With the corrected charging, a client's number of reports is its number of requests. |
| WorkerProcess.OccurrencesOfReportsAsWritten | rpc.js:23 | As written, a local address's number of reports is the number of requests that reach it. |
| WorkerProcess.ClientBannedIffOverLimit | start.js:28-43 | The corrected charging: a client with no ban becomes banned iff it alone sent enough requests to pass 5. |
| WorkerProcess.SharedAddressDropsQuietClient | start.js:192 | As written: two clients, three requests each, through one local address. The shared address is banned, so the client that sent only three is dropped. |
| WorkerProcess.FreshBanDrops | start.js:160-170 | As written: a local address banned at second `now` has its requests dropped at second `t` exactly while `t < now + 60`. |
| WorkerProcess.UnderLimitServed | start.js:192-197 | As written: a connection whose local address has no ban and receives at most 5 requests in the window keeps being served. |
| WorkerProcess.ExpiryKeepsAdmission | start.js:94-109 | On the duplicate-free list the master keeps, the expiry pass never changes a worker's routing decision at the pass's second or later. |
| Json.ReadStringOfEscape | errorObject.js:4 | The JSON string text of any string reads back to that string, leaving the rest of the input. |
| Json.ReadNumberOfNumber | errorObject.js:4 | The JSON text of any integer reads back to that integer, leaving the rest. |
| Json.Quote | errorObject.js:4 | A JSON string literal is delimited by double quotes. ReadStringOfEscape reads its value back. |
| Json.Number | errorObject.js:4 | An integer's JSON text is non-empty and starts with `-` iff the integer is negative. ReadNumberOfNumber reads it back. |
| ErrorObjects.New | errorObject.js:1-5 | The record carries the given code and message. |
| ErrorObjects.ErrorJson | errorObject.js:4 | The record's JSON text opens with the `errorCode` key and closes with `}`. ParseErrorJsonOfErrorJson reads both fields back. |
| ErrorObjects.ParseErrorJsonOfErrorJson | errorObject.js:4 | The serialised record decodes to exactly its code and message. |
| ErrorObjects.NewStringDecodes | errorObject.js:1-5 | The `string` field fixed at construction decodes to the record's own code and message. |
| ErrorObjects.NewInjective | errorObject.js:4 | Two records with the same `string` have the same code and message. |
| RpcServer.ParsePayloadOfPayloadJson | rpc.js:108 | The JSON of either response shape, `{contents}` or `{contents, error}`, decodes back to it. |
| RpcServer.ParseErrorTailOf | rpc.js:114 | The `,"error":...}` tail of a failed-fetch payload reads back to its message. |
| RpcServer.ErrorObjectsTable | rpc.js:127-130 | The two entries of `RPC.errorObjects`, InvalidRequest and MethodNotFound: the fixed text of each decodes to code 1 and code 2 with their messages. |
| RpcServer.PayloadJson | rpc.js:34 | A response's JSON text is one object, `{...}` (written at lines 34 and 44). ParsePayloadOfPayloadJson reads it back. |
| RpcServer.Stringified | rpc.js:34 | `JSON.stringify(this.response)` decodes back to the response. |
| RpcServer.Respond | rpc.js:26-45 | Written statuses: 200 iff resolved; 501 iff rejected with a record, body = the record's `string`; 202 iff rejected without a record while a response is set; 500 iff neither. A 500 or a 200 without a response writes an empty body. |
| RpcServer.RespondBody | rpc.js:26-45 | A 200 or 202 body decodes to the session's response. A 501 body decodes to the record's code and message. |
| RpcServer.JoinAppend | rpc.js:57 | Joining the chunks after one more arrives appends exactly that chunk. |
| RpcServer.Join | rpc.js:108 | The joined text starts with the first chunk and is at least as long as any chunk; JoinAppend shows each new chunk lands at the end (the same join at line 60). |
| RpcServer.MethodOf | rpc.js:66 | `currentMethod` is set iff the parse gave an object with a `method` field, and then it is that field's value; the GET branch does the same at line 72. |
| RpcServer.LookupAsWritten | rpc.js:84 | `calls[method]` finds the own call exactly when the method is `getURLContents`. It finds an inherited member that returns exactly for a name in InheritedNames, one that throws exactly for a name in ThrowingNames, and nothing for every other method or none. |
| RpcServer.FetchStep | rpc.js:95-102 | `getURLContents` does nothing iff `url` is missing or empty. Otherwise it fetches exactly `url`. It never rejects. |
| RpcServer.Dispatch | rpc.js:52-91 | The corrected dispatch. A non-object parse gives error 1 and nothing else does. A parse whose method is not `getURLContents` gives error 2 and nothing else does. Every other request runs `getURLContents` with the whole map. |
| RpcServer.DispatchAsWritten | rpc.js:83-91 | As written: a method in InheritedNames leaves the session stalled, and a method in ThrowingNames throws; together these are the twelve names of `Object.prototype`. Every other method is handled exactly as Dispatch does. |
| RpcServer.InheritedNameStalls | rpc.js:84-90 | `method=toString`: as written the session stalls with no response. The corrected lookup answers error 2. |
| RpcServer.PrototypeNameThrows | rpc.js:84-90 | `method=__proto__`: as written the call throws, since `Object.prototype` has no `apply`. The corrected lookup answers error 2. |
| RpcServer.ExchangeFetched | rpc.js:103-111 | A request for a reachable url is answered 200 with a body that decodes to the fetched contents joined in order. |
| RpcServer.ExchangeFetchFailed | rpc.js:113-116 | A failed fetch is answered 202 with a body that decodes to empty contents plus the error message. |
| RpcServer.ExchangeUnknownMethod | rpc.js:83-87 | A missing method, or one that is neither `getURLContents` nor a name of `Object.prototype`, is answered 501 with the body of error 2, whatever the fetch would do. Those names are covered by ExchangeInheritedName. |
| RpcServer.ExchangeInheritedName | rpc.js:84-90 | As written, a request whose method is a name of `Object.prototype` (PrototypeNames) is never answered. |
| RpcServer.ExchangeInvalid | rpc.js:61-64 | A parse that is not an object is answered 501 with the body of error 1. |
| RpcServer.Exchange | rpc.js:22-117 | The whole exchange as written. Nothing is written exactly when the session stalls or the call throws: a name in PrototypeNames, or `getURLContents` without a url. Otherwise the status is 200, 202 or 501, never 500. |
| RpcServer.Rpc.Get | rpc.js:70-80 | `init` plus the GET parse. It reports the socket's local address (line 23) and sets `currentMethod` and `currentRequest` before the object check. Then it is settled, running, stalled or thrown exactly as DispatchAsWritten says (lines 22-50), and `threw` holds exactly in the throwing case. |
| RpcServer.Rpc.Post | rpc.js:53-58 | `init` for a POST: it reports the socket's local address (line 23), keeps the prototype defaults and waits for the body. |
| RpcServer.Rpc.OnData | rpc.js:56-58 | The chunk is appended; the joined body grows by exactly it. |
| RpcServer.Rpc.OnEnd | rpc.js:59-69 | The joined body is decoded once. A non-object is rejected with error 1 and leaves the method and request unchanged. Otherwise both are set and the session runs as DispatchAsWritten says, with `threw` exactly in the throwing case. The response, the report, the body and the fetched chunks are unchanged. |
| RpcServer.Rpc.Run | rpc.js:83-91 | Runs as DispatchAsWritten says. Nothing found: reject with error 2. The own call: call `getURLContents` with the whole map. A member in InheritedNames: nothing settles. A member in ThrowingNames: nothing settles and `threw` is set. |
| RpcServer.Rpc.GetUrlContentsCall | rpc.js:95-102 | A fetch is issued exactly as FetchStep says. |
| RpcServer.Rpc.OnFetchData | rpc.js:104-106 | The chunk is appended; the joined contents grow by exactly it. |
| RpcServer.Rpc.OnFetchEnd | rpc.js:107-111 | The response is the joined chunks and the chunks are cleared. An unsettled session resolves with 200, and the body decodes to the response. A settled session keeps its outcome, its written response and its error record. |
| RpcServer.Rpc.OnFetchError | rpc.js:113-116 | The response is empty contents plus the error message. An unsettled session is rejected without a record: 202, and the body decodes to the response. A settled session keeps its outcome, its written response and its error record. |
| RpcServer.Rpc.Settle | rpc.js:26-45 | Only the first outcome takes effect; it writes Respond of that outcome. A rejection with a record stores the record in `error`. Later outcomes change nothing. |

## Left out

- Process and network effects: `cluster.fork`, `worker.kill`, `send`, `listen`,
  `http.get` and the response writers. They become the roster, the `killed`
  and `outbox` logs and the `written` response.
- Timers: `setInterval` scheduling and timing. Each timer callback is a method
  the environment calls.
- `new Date()` and the `~~` 32-bit truncation: the second is the parameter
  `now`, taken as a whole number with no wrap-around.
- `Math.random()`: taken as an exact real `r` in [0, 1), with no
  floating-point rounding.
- Decoding: `url.parse` and `querystring.parse` are given as their results. A
  repeated key, which gives an array value, is not modelled.
- The deferred and event wiring: `resolve`, `reject`, `done`, `fail`, `on` and
  `trigger` are not defined in the files of this repository. The model takes
  them as settle-once, with the first outcome running its callback. The
  constructor's `this.super_.call(this)` and `sys.inherits` (rpc.js:122-134)
  are left out too: Node's own `util.inherits` puts `super_` on the
  constructor and not on instances, so line 124 would throw after `init`.
  The model takes construction as `init` alone.
- Reading `/test.html` from disk and its 200/500 answer: the model stops at
  the route `TestPage`.
- `console.log` output.
- Per-chunk `toString` decoding: chunks are strings.
- `http.get` throwing synchronously on a malformed url: only the `error`
  event is modelled.
- `process.send` in a worker: the report is the `sent` field of the session.
- Json.Number: writes every integer in plain decimal. `JSON.stringify`
  does so only for magnitudes below 10^21 (it writes `1e+21` and beyond in
  exponent form), and a JavaScript number holds integers exactly only up
  to 2^53. Only the codes 1 and 2 are written. JSON text of numbers outside
  the integers, and JSON escapes beyond those `JSON.stringify` writes for
  these records, are not modelled either.
- The worker's end after a throwing call. For a name in
  `RpcServer.ThrowingNames`, line 90 of rpc.js throws: `__proto__` finds
  `Object.prototype`, which has no `apply`, and `__defineGetter__` and
  `__defineSetter__` demand a function. The uncaught exception ends the
  worker process. The model records it as the session's `threw` flag with
  nothing written, and does not model the process ending.
- RpcServer.InheritedNames: `hasOwnProperty`, `propertyIsEnumerable`,
  `__lookupGetter__` and `__lookupSetter__` return normally with a parsed
  map that has `Object.prototype` as its prototype, as the model takes it.
  With a null-prototype map they throw instead. Either way nothing is
  written.
- Supervisor.Supervisor.HandleMessage: requires `now > 0`. At second 0
  the stamp would be falsy, and the address would be banned again and listed
  twice. It also requires `now` to be no earlier than the last message's
  second, the ghost `clock`: the model does not cover a clock that goes back.
- RpcServer.Rpc.Settle: requires that a rejection without a record comes
  after a response is set. That is the only way the code rejects without a
  record, so the 500 branch of `Respond` is never written. It also requires
  that no call has thrown, since a worker that has ended runs no callback.
- BanTracker.Expire: requires a duplicate-free ordered list, as the master
  keeps it. On a list with a repeated address the source tests the table as
  it deletes and stops at the second copy; the model does not cover that.
- Behaviour worth noting, which the model follows:
  - the over-allocation streak is not reset by a tick with enough demand;
  - a worker bans while `stamp + 60 > now`;
  - the expiry pass deletes only when `stamp + 60 < now`, strictly.

## Findings

| source | as written | input that shows it | evidently intended | confidence | as-written member | corrected member |
|---|---|---|---|---|---|---|
| rpc.js:84 | `calls[currentMethod]` also finds members inherited from `Object.prototype` | `?method=toString`: the lookup finds a function and calls it, nothing settles, and the client gets no response; `?method=__proto__` throws and ends the worker | only the own call `getURLContents` is found, so any other method is answered 501 with error 2 | not executed | RpcServer.InheritedNameStalls | RpcServer.Dispatch |
| start.js:192 | a request is charged to `request.connection.address().address`, the server socket's local address (the same at rpc.js:23) | two clients reach the worker through local address 10.0.0.5 and send three requests each: the shared address passes 5 and both are dropped | each client's requests are counted and banned under its own remote address | not executed | WorkerProcess.SharedAddressDropsQuietClient | WorkerProcess.ClientBannedIffOverLimit |

The sessions and the routing model the code as written. The corrected
members state what each finding's code evidently intended.
