# messageq in Dafny

A model of the bookkeeping core of messageq, a Go message bus built on
relyq queues and Redis.

A bus maps every channel to an endpoint: its relyq prefix, the delimiter,
then the channel.

- **Subscribing** opens the endpoint's queue the first time it is needed.
  It registers the endpoint with a discovery service and hands out the
  queue's message stream.
- **Publishing** looks the channel's subscribers up. The lookup goes
  through a decaying memo of discovery listings. The message is then pushed
  onto every listed endpoint's queue.
- **Unsubscribing** drops and closes the endpoint's queue and unregisters
  the endpoint.
- **Closing** closes discovery and every queue, then closes the Errors
  channel.

The files:

- `outcomes.dfy` holds the `error` / `(T, error)` results.
- `redisdisco.dfy` is the Redis discovery adapter. Redis itself is a key →
  set store with an unreachable flag, and the adapter keeps a log of the
  calls it receives.
- `memo.dfy` is the decaying subscriber memo.
- `queues.dfy` is the queue handle and the forwarding loop of `wrapChan`.
- `types.dfy` holds the two message id schemes.
- `messageq.dfy` is the bus.

Each file follows the shape of its Go file. Objects whose fields Go
updates are classes whose methods state the whole new state: the memo's
map, a handle's stream, push log and closed flag, the bus's handle table,
the Redis store. Pure helpers are functions with lemmas.

Foreign results are parameters:

- relyq's answer to each push and close is `pushResult` / `closeResult`, a
  function from endpoint to error;
- `time.Now` is a nanosecond count: `now` for the memo's hit test and `stamp` for the moment a fetched listing is stored;
- the UUID generator is `freshId`, the id it would return.

## Model

| member | source | states |
|---|---|---|
| Memo.Entry.Decayed | messageq/subscribers_memo.go:49-51 | an entry is decayed exactly when `now > T + d` |
| Memo.NewEntry | messageq/subscribers_memo.go:45-47 | the entry holds the listing and the current time, and is not decayed at that instant for any non-negative decay |
| Memo.DecayBoundary | messageq/subscribers_memo.go:49-51 | the entry is still live at exactly `T + d`, and decayed at every later instant |
| Memo.DecayMonotone | messageq/subscribers_memo.go:49-51 | once decayed, an entry stays decayed as time advances |
| Memo.SubscribersMemo.constructor | messageq/subscribers_memo.go:23-29 | a new memo wraps the given service with an empty map and the given decay, so it holds no listing with repeats |
| Memo.SubscribersMemo.Subscribers | messageq/subscribers_memo.go:31-43 | an entry live at the hit test's instant `now` answers with its cached listing, makes no discovery call and leaves the map as it is; on a miss discovery is called exactly once; its error is returned with the map unchanged, or its listing is returned and stored with the second clock reading `stamp`, replacing only the entry for that channel; the memo keeps holding only repeat-free listings, so whatever listing is returned, from the memo or from discovery, has no repeats |
| Memo.LookupTwice | messageq/subscribers_memo.go:31-43 | on a clock that does not run backwards, a successful miss followed by a second lookup within the decay returns the same listing twice, with one discovery call in all; when the cached entry covers both instants, discovery is never called |
| RedisDisco.Joined | discovery/redis/redisdisco.go:13-34 | the stored prefix (`prefix + delim`) and every channel's key (stored prefix + channel) are one string followed by another, and both parts can be read back from the result |
| RedisDisco.KeyInjective | discovery/redis/redisdisco.go:21-34 | under one prefix, two channels share a key exactly when they are the same channel |
| RedisDisco.BulkStringsAppend | discovery/redis/redisdisco.go:40-47 | filtering a concatenated reply gives the two filtered parts concatenated, so kept elements stay in reply order |
| RedisDisco.BulkStringsLength | discovery/redis/redisdisco.go:40-47 | the filtered list is never longer than the reply |
| RedisDisco.BulkStringsMembers | discovery/redis/redisdisco.go:40-47 | a string is in the filtered list exactly when the reply holds it as a bulk string |
| RedisDisco.BulkStringsOfBulks | discovery/redis/redisdisco.go:33-47 | a reply made only of bulk strings is filtered to exactly its strings, in order |
| RedisDisco.FilterBulk | discovery/redis/redisdisco.go:40-47 | the append loop yields the bulk-string elements of the reply, in order, dropping every other kind |
| RedisDisco.SubscribersFromReply | discovery/redis/redisdisco.go:35-47 | a failed SMEMBERS gives its error and no list; a reply gives its filtered bulk strings |
| RedisDisco.SetMembers | discovery/redis/redisdisco.go:35 | Redis lists a set's members once each, in an order of its choosing: the list has no repeats and holds exactly the set |
| RedisDisco.RedisDiscovery.constructor | discovery/redis/redisdisco.go:13-18 | the new adapter stores `prefix + delim`, has received no calls, and sees the server's key space |
| RedisDisco.RedisDiscovery.Register | discovery/redis/redisdisco.go:20-25 | the call is logged; the server's error is returned; on success the channel's set gains the endpoint and only that key changes; on failure the store is unchanged |
| RedisDisco.RedisDiscovery.Unregister | discovery/redis/redisdisco.go:27-31 | the call is logged; the server's error is returned; on success the channel's set loses the endpoint and only that key changes; on failure the store is unchanged |
| RedisDisco.RedisDiscovery.Subscribers | discovery/redis/redisdisco.go:33-48 | the call is logged and the store is unchanged; the result is an error exactly when the server is unreachable; otherwise it lists the channel's registered endpoints exactly, each once |
| RedisDisco.RedisDiscovery.Close | discovery/redis/redisdisco.go:50-52 | always nil; nothing in the store changes |
| Queues.Queue.constructor | messageq/queues.go:16-20 | a freshly opened handle has no stream, has never listened, holds no pushes and is open |
| Queues.Queue.Push | messageq/messageq.go:145 | relyq's error is returned and the message joins the end of the handle's push log; nothing else changes |
| Queues.Queue.Close | messageq/queues.go:23-25 | relyq's error is returned and the handle is closed; nothing else changes |
| Queues.Queue.Messages | messageq/queues.go:27-35 | the first call listens once and returns a new stream fed by the handle's own endpoint; later calls return that same stream and do not listen again; pushes and the closed flag are untouched |
| Queues.WrapChan | messageq/queues.go:37-49 | the forwarding loop produces the trace `WrapTrace` of its task sequence |
| Queues.ForwardedAt | messageq/queues.go:40-43 | task `i` is delivered at step `2i` and finished at step `2i + 1`, so each task is delivered before it is finished, in task order |
| Queues.ForwardedOnlyDeliversAndFinishes | messageq/queues.go:40-43 | while forwarding, every step is a delivery or a finish |
| Queues.WrapTraceShape | messageq/queues.go:39-47 | the whole trace has `2n + 3` steps; every task is delivered then finished in order; no task is ever failed; Finish, Fail and the stream are closed, in that order, at the end |
| Types.ArbitraryMessage.Id | messageq/types.go:10-17 | an existing string id is returned and the map is left alone; otherwise the fresh id is stored under "id" and returned; no other key changes |
| Types.ArbitraryIdTwice | messageq/types.go:10-17 | a second Id call returns the same id as the first, whatever the generator offers |
| Types.StructuredId | messageq/types.go:30-39 | a non-empty MqId is kept and returned; an empty one is replaced by the fresh id; a nil receiver gets the fresh id and stores nothing; the id is never empty |
| Types.StructuredIdStable | messageq/types.go:35-38 | once set, MqId is returned by every call and never changes |
| Types.NilStructuredIdUnstable | messageq/types.go:31-33 | on a nil receiver, two calls with different generator output return different ids |
| MessageQ.Defaults | messageq/messageq.go:155-161 | a zero decay becomes five minutes; a non-zero one and the relyq settings are kept; the result's decay is never zero |
| MessageQ.DefaultsIdempotent | messageq/messageq.go:155-161 | applying the defaults twice equals applying them once |
| MessageQ.WaitAll | messageq/messageq.go:109 | the waiter reports nil exactly when every slot succeeded |
| MessageQ.WaitAllSnoc | messageq/messageq.go:113-118 | adding a slot keeps the waiter successful exactly when the new slot succeeds too |
| MessageQ.LastFailure | messageq/messageq.go:83-84 | the intended loop result is nil exactly when every push succeeded |
| MessageQ.LastFailureIsLast | messageq/messageq.go:83-84 | a failure the intended loop reports is the error of some push, and every later push succeeded |
| MessageQ.ResultAsWrittenIsNil | messageq/messageq.go:82-89 | the as-written fold `ResultAsWritten` starts with nil and takes a push's result only when `err` is already an error, as line 83 tests it; it always ends with nil |
| MessageQ.PushErrorIsDiscarded | messageq/messageq.go:83 | for one subscriber whose push fails, the intended result is that error while the as-written result is nil |
| MessageQ.IntendedReportsPushErrors | messageq/messageq.go:83-84 | with the test on `err2`, any failed push makes the publish fail |
| MessageQ.CountPositive | messageq/messageq.go:82-86 | an endpoint receives pushes exactly when it occurs in the listing |
| MessageQ.CountNoDups | messageq/messageq.go:82-86 | over a listing without repeats, such as a Redis set's members, every listed endpoint receives exactly one push |
| MessageQ.FanOutNone | messageq/messageq.go:82-86 | pushing onto no endpoint changes no handle |
| MessageQ.FanOutStep | messageq/messageq.go:82-86 | one more send extends a fan-out over a listing to a fan-out over the listing plus that endpoint |
| MessageQ.MessageQueue.constructor | messageq/messageq.go:53-65 | New applies the defaults, starts with no handles and an open Errors channel, and wraps the discovery service in an empty memo with a non-zero decay |
| MessageQ.MessageQueue.GetEndpoint | messageq/messageq.go:130-132 | the endpoint is the relyq prefix, the delimiter and the channel, in that order |
| MessageQ.MessageQueue.EndpointInjective | messageq/messageq.go:130-132 | different channels of one bus have different endpoints |
| MessageQ.MessageQueue.NewQueue | messageq/queues.go:12-21 | a new handle's relyq settings are the bus's with only the prefix replaced by the endpoint; it has no stream yet |
| MessageQ.MessageQueue.GetQueue | messageq/messageq.go:134-141 | an existing handle is returned with the table unchanged; otherwise exactly one new handle is entered under the endpoint and no other entry changes |
| MessageQ.MessageQueue.Endpoint | messageq/messageq.go:125-128 | the channel's endpoint and its handle, opened if need be |
| MessageQ.MessageQueue.Subscribe | messageq/messageq.go:67-73 | the endpoint gets a handle: a new one is fresh, has listened once and holds the returned stream, no pushes and is open; an existing one changes only in its stream and its listener count, as Messages gives them; Register is called once with channel and endpoint; the handle's stream is returned together with Register's error, even when that error is not nil; on success only the channel's Redis key gains the endpoint, on failure the store is unchanged; no other handle changes |
| MessageQ.MessageQueue.Send | messageq/messageq.go:143-146 | the endpoint's handle, new if need be, gets the message at the end of its log; every other handle is untouched; relyq's error is returned |
| MessageQ.MessageQueue.PushStep | messageq/messageq.go:83 | one turn of the fan-out loop extends the fan-out by one endpoint |
| MessageQ.MessageQueue.PushAll | messageq/messageq.go:82-86 | every listed endpoint's handle, new ones included, gets one copy of the message per occurrence in the listing; no other handle changes; the kept error is the as-written fold `ResultAsWritten` of the push results, or the last push error as intended |
| MessageQ.MessageQueue.Publish | messageq/messageq.go:76-90 | a lookup error is returned at once, with no handle created or changed; otherwise the message fans out to every listed endpoint and the result is the as-written fold of the push results, which is nil whatever the pushes returned; the listing has no repeats whether the memo hit or missed, so with CountNoDups every listed endpoint gets exactly one copy |
| MessageQ.MessageQueue.PublishReportingPushErrors | messageq/messageq.go:76-90 | the same, except that after a successful lookup the last push error is returned; the listing has no repeats, so every listed endpoint gets exactly one copy |
| MessageQ.MessageQueue.Unsubscribe | messageq/messageq.go:93-110 | the endpoint's handle leaves the table and is closed if it was there; Unregister is called once; on success only the channel's Redis key loses the endpoint, on failure the store is unchanged; no other handle changes; the result is nil exactly when Unregister and the close, if any, both succeeded |
| MessageQ.MessageQueue.CloseHandle | messageq/messageq.go:116 | closing one handle changes no other handle |
| MessageQ.MessageQueue.CloseQueues | messageq/messageq.go:115-117 | every handle in the table is closed and nothing else in any handle changes; the waiter succeeds exactly when every earlier slot and every handle's close succeeded |
| MessageQ.MessageQueue.Close | messageq/messageq.go:112-121 | discovery is closed once and every handle is closed; the Errors channel is closed, and a bus whose channel is already closed cannot be closed again; the Redis store and its reachability are unchanged; the result is nil exactly when every handle's close succeeded |

## Left out

- Redis I/O is not modelled: connection pools, `rd.do` and the wire protocol. The server is its key → set store, plus an `unreachable` flag under which every command fails with one fixed error.
- Each discovery object has its own copy of the Redis store, so two buses sharing one Redis are not modelled.
- relyq internals are not modelled: `NewRedisJson`, `Push`, `Listen`, JSON encoding and decoding by example shape. Push and close results are parameters.
- `RelyQConfig.Defaults` (relyq's own defaults) is not modelled; the relyq settings are taken as already defaulted. Go's `Config.Defaults` also rewrites the caller's `cfg` in place, which the model does not show. New's `pool` argument is not modelled.
- gowaiter's concurrency and timeout are not modelled.
- The goroutines are not modelled: forwarding relyq errors onto Errors (`forwardErrors`, and the `errs` and `example` arguments of Messages), and wrapChan as a concurrent process. wrapChan is modelled as a sequential trace over a finite task sequence.
- The clock readings of `time.Now` are the parameters `now` and `stamp`. Go's `Time.Add` and `Sub` saturate on overflow; the model uses unbounded integers.
- The memo and the bus are built over the Redis adapter `RedisDiscovery`. Go's memo accepts any `subscriberser`, and New accepts any `Discovery`; other implementations of those interfaces are not modelled.
- MessageQ.WaitAll: gowaiter's code is not part of this model. The model states only that Wait is nil exactly when every slot succeeded; which error it reports otherwise, and whether it aggregates several, is not claimed.
- The UUID generator is the parameter `freshId`. Its uniqueness is up to the caller, and the nil-receiver result holds only for distinct offers.
- Go's `[]byte` conversion of ids is the identity on strings.
- Types.ArbitraryMessage.Id: a nil `ArbitraryMessage` map is not modelled. In Go its read at types.go:11 behaves as an empty map, and the first `Id` call then panics on the write at line 15; the model's message always has a map, and an empty one gets the fresh id. A non-string "id", whose type assertion panics at line 12, is excluded by Id's precondition.
- MessageQ.MessageQueue.PushAll: the order of pushes is recorded per handle, not across endpoints.
- A nil `Config.RelyQConfig` pointer, which makes New and newQueue panic, is not modelled.
- The end-to-end scenarios of the Go tests are not modelled: a push on one bus delivered to a stream on another, through Redis. The model has no delivery, only the push logs.
- messageq/shortcuts.go and example/* are process wiring and command-line code. They are not part of this model.
- Where the code and the text describing it differ, the model follows the code:
  - the memo's hit test is `now <= T + decay`, so an entry is still live at exactly `T + decay`, and a decay of zero still answers from the memo within the same instant;
  - through New, a zero decay never reaches the memo, because Defaults turns it into five minutes;
  - Subscribe returns the stream even when Register failed.

## Findings

| source | as written | input that shows it | evidently intended | confidence | as-written member | corrected member |
|---|---|---|---|---|---|---|
| messageq/messageq.go:83 | the loop tests `err != nil`, and `err` is nil there after the early return, so `err = err2` never runs and push errors are discarded | a listing `["a"]` whose push onto `a` fails: Publish returns nil | test `err2 != nil`, so Publish returns the last push error | not executed | MessageQ.PushErrorIsDiscarded | MessageQ.MessageQueue.PublishReportingPushErrors |
