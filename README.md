# Non-blocking D-Bus connection: reply correlation, filter dispatch and the reply future

This project models the core of the asynchronous connection in `dbus/src/nonblock.rs` of
the dbus-rs crate. It covers three parts.

- **The connection's tables.**
  - A reply table maps a request serial to a one-shot reply callback.
  - An ordered filter table maps a subscription id to a match rule and a callback that is kept or dropped after each call.
  - A counter hands out subscription ids.
- **The dispatch loop `process_all`.** It drains the inbound queue. Each message goes to exactly one of three places:
  - the reply callback registered under its reply serial, which is removed first;
  - otherwise, the matching filter with the smallest id, which is removed, run, and put back under the same id only if it asks to be kept;
  - otherwise, a best-effort default reply.
- **The single-slot reply cell and the `MethodReply` future.** The reply callback fills the cell and wakes a parked consumer. A failed send fills the cell with an error at once. `poll` either takes the result or parks the latest waker, and `and_then` chains a further decoding step.

Layout:

- `wrappers.dfy`, module `Wrappers`: `Option` and `Result`.
- `transport.dfy`, module `Transport`: a stand-in for the channel.
  - It holds a queue of received messages, a log of accepted outgoing messages and the last serial it assigned.
  - It has an `accepting` flag; a send fails exactly when the flag is off.
- `routing.dfy`, module `Routing`: one dispatch turn (`Step`) and a whole pass (`Run`) as functions of values, with the lemmas about them.
  - The message accessors and foreign predicates form an `Env` value:
    - the reply-serial accessor;
    - `MatchRule::matches`;
    - `default_reply`;
    - the filter callback, which takes its state and the message and returns whether to keep the filter, plus its new state.
- `nonblock.dfy`, module `Nonblock`: `Connection` as a class whose tables are fields updated in place.
  - `FindFilter`, `Dispatch` and `ProcessAll` are proved against the `Routing` functions. The table operations (`SendWithReply`, `CancelReply`, `StartReceive`, `StopReceive`) state their map updates directly.
  - The `trace` field records, in order, each reply callback run, each filter callback run, and each default reply the connection tried to send.
- `reply_future.dfy`, module `ReplyFuture`: the cell (`ReplyCell`), the future (`MethodReply`), and a replay function over sequences of deliveries and polls.
- `proxy.dfy`, module `Proxy`: `method_call`'s registration and send-failure path, and whole scenarios built from the pieces above.

## Model

| member | source | states |
|---|---|---|
| Nonblock.Connection.constructor | dbus/src/nonblock.rs:31-40 | A connection built from a channel starts with empty reply and filter tables and the id counter at 0. |
| Nonblock.Connection.SendWithReply | dbus/src/nonblock.rs:54-59 | If the channel accepts the message, the returned serial is the channel's next serial. That serial was not pending, and the callback is stored under it. If the send fails, `Err(())` is returned and the reply table is unchanged. |
| Nonblock.Connection.CancelReply | dbus/src/nonblock.rs:60 | Returns the callback stored under the id and removes it. For an unknown id it returns `None` and changes nothing. |
| Nonblock.Connection.StartReceive | dbus/src/nonblock.rs:65-69 | Returns the counter's old value, which is not yet a key. Increments the counter by one and inserts the rule and callback under the returned id. The invariant "every id is below the counter" is kept. |
| Nonblock.Connection.StopReceive | dbus/src/nonblock.rs:71-73 | Removes and returns the filter under the id. All other filters and the counter are unchanged. An unknown id gives `None`. |
| Nonblock.Connection.FindFilter | dbus/src/nonblock.rs:97 | The scan returns the smallest id whose rule matches, or `None` exactly when no filter matches. |
| Nonblock.Connection.Dispatch | dbus/src/nonblock.rs:89-108 | One turn changes the tables and the trace exactly as `Routing.Step` says. The outbound log grows only by the default reply, and only when the channel accepts it. |
| Nonblock.Connection.ProcessAll | dbus/src/nonblock.rs:88-110 | Loops until the inbound queue is empty. Handles the messages in queue order, so the tables and trace end as `Routing.Run` over the old queue says. Only default replies are sent. |
| Routing.Step | dbus/src/nonblock.rs:89-108 | One turn of the loop on one message: reply callback first, else the smallest matching filter (removed and re-inserted only if kept), else the default reply. It never moves the id counter, and it never adds a reply or filter key. |
| Routing.Run | dbus/src/nonblock.rs:88-110 | A whole pass: `Step` on each queued message, front to back, with the effects concatenated in order. Like `Step`, it keeps the counter and only drops keys. |
| Routing.FirstMatch | dbus/src/nonblock.rs:97 | The result is the least id whose filter matches. `None` means no filter matches. |
| Routing.FirstMatchIsLeast | dbus/src/nonblock.rs:97 | Any id that matches while every smaller id does not is the one `FirstMatch` picks. |
| Routing.NoMatchIsNone | dbus/src/nonblock.rs:97 | With no matching filter, the search yields `None`. |
| Routing.StepReply | dbus/src/nonblock.rs:90-95 | A message whose reply serial is registered removes that entry, runs that callback once, and touches no filter and sends nothing. |
| Routing.StepFilter | dbus/src/nonblock.rs:96-105 | A message not taken as a reply goes only to the smallest matching filter. Afterwards that id is present, with the same rule and the callback's new state, exactly when the callback returned keep. No other filter, no reply and not the counter changes. |
| Routing.StepUnhandled | dbus/src/nonblock.rs:106-108 | A message with no reply and no matching filter leaves the tables alone. It sends `default_reply(msg)` when that exists, and nothing otherwise. |
| Routing.StepAtMostOneEffect | dbus/src/nonblock.rs:89-108 | Each message goes to at most one place, so it produces at most one effect. |
| Routing.RunAtMostOneEffectEach | dbus/src/nonblock.rs:88-110 | A pass produces no more effects than it has messages. |
| Routing.RunAppend | dbus/src/nonblock.rs:89 | Draining one queue and then another equals draining their concatenation, so messages are handled in queue order. |
| Routing.RunKeepsCounterFresh | dbus/src/nonblock.rs:96-105 | Dispatch never moves the id counter and keeps every filter id below it, because re-insertion reuses the same id. |
| Routing.DefaultReplies | dbus/src/nonblock.rs:106-108 | The messages a pass sends are default replies it recorded, at most one per effect. |
| Routing.StepRemovesInvoked | dbus/src/nonblock.rs:90-95 | One message removes from the reply table exactly the serial whose callback it ran. That callback is the one that was registered. |
| Routing.RunRepliesShrink | dbus/src/nonblock.rs:89-95 | A pass only removes reply entries and never adds or changes one. |
| Routing.RunRemovesInvoked | dbus/src/nonblock.rs:89-95 | After a pass, the reply table has lost exactly the serials whose callbacks ran. |
| Routing.RunRunsRegistered | dbus/src/nonblock.rs:89-95 | Every reply callback a pass runs was registered under the serial it ran for. |
| Routing.RunSerialsDistinct | dbus/src/nonblock.rs:89-95 | No reply callback runs twice in a pass, since the entry is removed before it runs. |
| ReplyFuture.WokenByDelivery | dbus/src/nonblock.rs:151-152 | The reply callback wakes exactly the stored waker when the cell was pending, and no waker otherwise. |
| ReplyFuture.AfterPoll | dbus/src/nonblock.rs:175-179 | A poll empties a ready cell. Any other cell becomes pending on the new waker only. |
| ReplyFuture.ReplyCell.constructor | dbus/src/nonblock.rs:147 | A new cell holds nothing and has woken nobody. |
| ReplyFuture.ReplyCell.Complete | dbus/src/nonblock.rs:149-153 | The reply callback always leaves the cell `Ready(Ok(msg))`. It wakes the held waker if the cell was pending, and nothing otherwise. |
| ReplyFuture.ReplyCell.FailSend | dbus/src/nonblock.rs:154-156 | A failed send makes the cell ready with the "Failed to send message" error of name `org.freedesktop.DBus.Error.Failed`. |
| ReplyFuture.MethodReply.constructor | dbus/src/nonblock.rs:157 | The future holds the cell and the read function. |
| ReplyFuture.MethodReply.Poll | dbus/src/nonblock.rs:172-184 | On a ready cell, returns the result passed through the read function, empties the cell and uses up the read function. Otherwise returns pending and parks the cell on the latest waker, dropping any earlier one. |
| ReplyFuture.MethodReply.AndThen | dbus/src/nonblock.rs:189-195 | Consumes the future: the new future shares the cell, its read function is the old one followed by `f`, and the old future's read function is gone, so the cell keeps one consumer. |
| ReplyFuture.ComposeReadRunsOnlyOnSuccess | dbus/src/nonblock.rs:193 | The composed read function returns the first step's error unchanged when that step fails. Otherwise it is `f` applied to the first step's value, so `f` runs only after a successful decode. |
| ReplyFuture.ReplayWakesAndTakesOnce | dbus/src/nonblock.rs:149-184 | Over any sequence of deliveries and polls, each delivery wakes at most one consumer. The results the polls take out are, as a multiset, contained in the cell's initial result plus the delivered results, so each result is taken out at most once. |
| ReplyFuture.LatestWakerWoken | dbus/src/nonblock.rs:149-180 | After two polls and then a delivery, only the second poll's waker is woken. |
| ReplyFuture.SecondPollPends | dbus/src/nonblock.rs:172-180 | After a poll takes the result out, another poll parks its waker and takes nothing. |
| Proxy.MethodCall | dbus/src/nonblock.rs:147-157 | Returns a future on a fresh, empty cell with the given read function. On a successful send, the cell is registered under the call's new serial. On a failed send, the cell is already `Ready(Err(..))` and no reply entry is added. |
| Proxy.FailedCallResolvesAtOnce | dbus/src/nonblock.rs:154-183 | The first poll of a call whose send failed yields the send-failure error, and the reply table is unchanged. |
| Proxy.CallRoundTrip | dbus/src/nonblock.rs:88-183 | A call is polled early, its answer arrives and is dispatched, and the recorded callback runs. The early waker is woken, the next poll yields `readAll(answer)`, and both tables end as they started. |
| Proxy.OverlappingFiltersOlderWins | dbus/src/nonblock.rs:65-105 | Successive subscriptions get increasing ids. When a message matches both, only the older one runs. It stays exactly when it returned keep, and the newer one is untouched. |

## Left out

- The channel's own I/O (`send`, `pop_message`, `read_write`) and `read_write`'s error mapping are not modelled.
  - The channel is an abstract queue, an outbound log and an `accepting` flag.
  - Received messages are placed with `Channel.Receive`.
- `MatchRule::matches`, `default_reply`, `get_reply_serial` and the callbacks' bodies belong to code outside this file. They are function fields of `Routing.Env`.
- Running a reply callback is recorded as a `ReplyInvoked` effect in the connection's trace.
  - The callback's own effect on its cell is `ReplyCell.Complete`.
  - `Proxy.CallRoundTrip` applies it after the pass.
- Re-entrancy is not modelled: a callback that changes the connection's tables while it runs.
- Message construction and argument (de)serialisation in `method_call` are not modelled: `ReadAll`, `AppendAll` and `Message::method_call`. The call message and the read function are parameters.
- `Arc`, `Mutex`, `RefCell`, `Cell` and `task::Waker` are not modelled.
  - The cell is one mutable field.
  - A wake-up is an entry in the cell's `woken` log.
- `Proxy::new`, the `AsRef`, `From` and `Sender` impls beyond the constructor, and the `stdintf` module are not part of this model.
- Nonblock.Connection.StartReceive: the id counter is an unbounded `nat`, so the `u32` wrap-around of `id+1` is not modelled.
- Nonblock.Connection.Dispatch: does not state how far the channel's serial counter moves when a default reply is sent. Only the outbound log is stated.
- Nonblock.Connection.ProcessAll: like `Dispatch`, states the outbound log but not the channel's serial counter.
- `filter_nextid` starts at `Default::default()`, which is 0, so the first two subscriptions get ids 0 and 1.
- The `expect("Polled MethodReply after Ready")` at `dbus/src/nonblock.rs:182` suggests that polling again after completion panics. In the code, the first ready poll resets the cell to `Neither`. So a second poll parks its waker and returns pending instead. The `expect` fires only when the cell is ready again after the read function was used up. `MethodReply.Poll` requires exactly that this cannot happen. `ReplyFuture.SecondPollPends` states the code's behaviour.
- ReplyFuture.MethodReply.AndThen: the `first.unwrap()` panic on a future whose read function was already used up is not modelled. `AndThen` requires a read function instead.
- Nonblock.Connection.ProcessAll: within one pass, the channel's sends either all succeed or all fail, because the stand-in channel's `accepting` flag does not change. In the source, each default-reply send succeeds or fails on its own.
