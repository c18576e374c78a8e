# mining_rig_server core, modelled in Dafny

The modelled core is the server of a GPU mining farm monitor. The store holds three tables:

- farms, each with its rigs;
- rigs, the machines, each with its GPUs;
- GPUs.

The model covers two parts of the server's Rust handlers.

1. **The farm/rig/GPU handlers** (`v1/src/handlers/farm.rs`, `v1/src/handlers/rig.rs`).
   - `get_farms` rebuilds the nested Farm → Rig → GPU tree from the rows of one `farm LEFT JOIN rig LEFT JOIN gpu` scan, in a single pass that finds and pushes in place.
   - `Farms.Grouped` states declaratively what the result must be: a first-occurrence grouping of the rows.
   - `Farms.GetFarms` is the handler's loop, proved to compute exactly `Grouped`.
   - `FarmProperties` proves what the handler promises about `Grouped`:
     - no duplicate farm or rig;
     - first-occurrence order;
     - names taken from the first row;
     - null rig rows add nothing;
     - one GPU per qualifying row;
     - null defaults;
     - back-references.
   - The two rig listings are loops over the rig records.
   - Moving a rig to a farm is a method on a `RigTable` class that holds the rig rows.
2. **The websocket actors** (`server_websocket.rs`, `websocket_handler.rs`, `ws_rig.rs`, `ws_frontend.rs`).
   - Every connection has an actor mailbox (messages posted with `do_send`) and a socket (frames written with `ctx.text` / `ctx.pong`). Both are queues in the `Connections.Sockets` class.
   - Connections register in a shared registry. `Registry.ClientSet` models the `HashSet` drafts and `Registry.ClientList` the `Vec` drafts, where `stopped` is a `retain` loop.
   - Each actor's reaction to one inbound frame is a pure function:
     - the echo or pong of `MyWebSocket`;
     - the acknowledgement of `RigWebSocket`;
     - the `type`-tag dispatch of `FrontendWebSocket`.

     A stream-handler method applies that function to the queues.
   - The broadcast `send_command_to_rigs` is a loop over the set of members.

The outside world enters as parameters or inputs:

- **Store outcomes.** A query result is a `StoreResult` input (rows or a driver error). A per-rig GPU lookup is a function `Id -> StoreResult<seq<Gpu>>`. The frontend store calls are a function `StoreCall -> Option<string>`, where `None` means the call panicked. In handler_frontend.rs only `show_rigs` can panic, through the `expect` on its rig query. The failure of `UPDATE rig` is an `Option<string>` input.
- **JSON.** Frontend parsing is a function `string -> Option<Request>`, with `None` for text that is not JSON. GPU telemetry is recognised by the predicate `isGpuData`. Serialisation is a function `Reply -> string`.
- **Numbers.** `f64` columns are `real`. Ids are `int` restricted to the `i64` range.
- **Actor addresses** are natural numbers that are only compared.

The frontend `EDIT_FARM` branch reads the request's `id` with a default of 0. It calls the store only when the whole request deserialises as a `Farm`, and that needs an integer `id`. So the default is never used, and an edit always addresses the farm named in its payload (`FrontendSocket.EditAddressesPayloadFarm`).

## Model

| member | source | states |
|---|---|---|
| Farms.GetFarms | v1/src/handlers/farm.rs:34-112 | a failed scan gives a server error with "Error fetching farms with rigs and GPUs"; otherwise the one-pass loop over the rows returns exactly `Grouped(rows)` |
| Farms.FindId | v1/src/handlers/farm.rs:40-44 | over the id column of the farms (line 40) or of one farm's rigs (line 44): returns the index of the first entry with the id, and none exactly when no entry has it |
| Farms.GroupedNewFarm | v1/src/handlers/farm.rs:76-105 | a row whose farm is not yet in the result appends the farm that row builds, and leaves every earlier farm as it was |
| Farms.GroupedExistingFarm | v1/src/handlers/farm.rs:42-75 | a row of a farm already in the result changes only that farm's rigs |
| Farms.RigNodesNewRig | v1/src/handlers/farm.rs:55-73 | a row with a rig id new to its farm appends the rig that row builds: name defaulted, location copied, back-reference to the farm, empty MAC, at most one GPU |
| Farms.RigNodesExistingRig | v1/src/handlers/farm.rs:45-54 | a row with a rig id already in the farm only appends its GPU, if it has one, to that rig |
| Farms.RigNodesNullRig | v1/src/handlers/farm.rs:43-75 | a row with a null rig id leaves the rigs of its farm unchanged |
| Farms.SingleRowFarm | v1/src/handlers/farm.rs:77-103 | a farm built from a single row is exactly the farm that row creates |
| FarmProperties.NoRowsNoFarms | v1/src/handlers/farm.rs:36-38 | zero rows give an empty farm list |
| FarmProperties.FarmsUnique | v1/src/handlers/farm.rs:38-42 | no two output farms share an id, and a farm id appears in the output iff some row carries it |
| FarmProperties.FarmsInFirstOccurrenceOrder | v1/src/handlers/farm.rs:38-42 | for output farms i < j, some row of farm i comes before every row of farm j |
| FarmProperties.FarmFieldsFromFirstRow | v1/src/handlers/farm.rs:77-81 | each farm's name and location are those of the first row with its id |
| FarmProperties.RigsOfFarm | v1/src/handlers/farm.rs:43-90 | within a farm, rig ids are unique; a rig id appears iff a row of that farm carries it; each rig has farm id `Some(farm)`, an empty MAC, and the name (null gives "") and location of its first row |
| FarmProperties.RigsInFirstOccurrenceOrder | v1/src/handlers/farm.rs:43-90 | within a farm, for rigs i < j, some row of that farm carrying rig i comes before every row of that farm carrying rig j |
| FarmProperties.NullRigRowAddsNoRig | v1/src/handlers/farm.rs:42-105 | a row with a null rig id adds no rig and no GPU, even with a GPU id; it leaves a known farm unchanged and creates an unknown farm with no rigs |
| FarmProperties.GpuCountSnoc | v1/src/handlers/farm.rs:46-98 | one more row adds exactly one GPU to the total when its rig id and GPU id are both non-null, and none otherwise |
| FarmProperties.GpuPerQualifyingRow | v1/src/handlers/farm.rs:46-98 | GPUs are not deduplicated: the total equals the number of rows with both a rig id and a GPU id |
| FarmProperties.GpusPointToTheirRig | v1/src/handlers/farm.rs:52-97 | every GPU in the result has `rig_id` equal to `Some` of the rig that holds it |
| FarmProperties.RowAppendsItsGpu | v1/src/handlers/farm.rs:46-53 | a row with a rig id and a GPU id puts, last in that rig of that farm, a GPU with its id; a null name becomes "" and null readings become 0 |
| FarmProperties.TwoRigsFirstRows | v1/src/handlers/farm.rs:45-54 | the example's first two rows (R1 with G1, R1 with G2) give farm F1 holding R1 with [G1, G2] |
| FarmProperties.TwoRigsExample | v1/src/handlers/farm.rs:38-106 | three rows (R1 with G1, R1 with G2, R2 without GPU) give one farm F1 holding R1 with [G1, G2] and R2 with no GPUs |
| FarmProperties.FirstRowCreatesFarm | v1/src/handlers/farm.rs:76-105 | a single row gives exactly the one farm built from that row's columns |
| FarmProperties.SecondRowSameRig | v1/src/handlers/farm.rs:45-54 | a second row for the same farm and rig appends its GPU to that rig and changes nothing else |
| FarmProperties.NextRowNewRig | v1/src/handlers/farm.rs:55-73 | a row of any known farm k, with a rig id new to that farm, appends the rig built from the row after farm k's existing rigs; every other farm is unchanged |
| FarmProperties.RepeatedGpuRowExample | v1/src/handlers/farm.rs:46-53 | the same GPU row twice gives that GPU twice under one rig of one farm |
| Rigs.GetRigs | v1/src/handlers/rig.rs:107-135 | a failed scan gives "Error fetching rig data"; otherwise one rig per record, in record order, with the five columns copied and no GPUs |
| Rigs.GetRigsWithGpus | v1/src/handlers/rig.rs:42-79 | a failed scan gives "Error fetching Rig data"; otherwise one rig per record, in order, with columns copied; its GPUs are what its lookup returned, or none if the lookup failed |
| Rigs.MoveRig | v1/src/handlers/rig.rs:88-98 | same keys; only the addressed rig changes, and only its farm id, set to `Some(farm)` without checking that the farm exists |
| Rigs.MoveRigLastWins | v1/src/handlers/rig.rs:92-96 | moving a rig twice equals moving it once to the second farm |
| Rigs.MovesOfDistinctRigsCommute | v1/src/handlers/rig.rs:92-96 | moves of two different rigs commute |
| Rigs.RigTable.UpdateRigFarm | v1/src/handlers/rig.rs:83-104 | on store success the table becomes `MoveRig(old, rig, farm)` and the reply is "Rig moved to new farm successfully"; on failure the table is unchanged and the reply is "Failed to move rig: " plus the error |
| Connections.Sockets.Post | v1/src/handlers/server_websocket.rs:94 | `do_send` appends the message to the addressed mailbox only |
| Connections.Sockets.Write | v1/src/handlers/ws_rig.rs:36 | `ctx.text`/`ctx.pong` appends the frame to that connection's socket only |
| Connections.Sockets.HandleNext | v1/src/handlers/server_websocket.rs:74-76 | handling the oldest queued message removes it from the mailbox and writes its text to the socket unchanged |
| Connections.PostedToAllOnce | v1/src/handlers/server_websocket.rs:89-95 | after a broadcast, each member's mailbox ends with exactly one more copy of the message; non-members' mailboxes are unchanged |
| Registry.ClientSet.Started | v1/src/handlers/server_websocket.rs:39-42 | `started` inserts the address into the set; inserting a present address adds nothing |
| Registry.ClientSet.Stopped | v1/src/handlers/websocket_handler.rs:46-49 | `stopped` removes the address; other members are untouched, and an absent address is a no-op |
| Registry.ClientList.Started | v1/src/handlers/ws_rig.rs:14-17 | `started` appends the address at the end of the list |
| Registry.ClientList.Stopped | v1/src/handlers/ws_rig.rs:19-22 | the `retain` loop leaves exactly `Without(old list, address)` |
| Registry.Without | v1/src/handlers/ws_frontend.rs:23-26 | the address is gone from the result, and every other address is in the result iff it was in the list |
| Registry.WithoutMultiset | v1/src/handlers/ws_frontend.rs:25 | every other address keeps its multiplicity |
| Registry.WithoutAppend | v1/src/handlers/ws_rig.rs:21 | removal distributes over concatenation, so the kept entries stay in their original order |
| Registry.WithoutAbsent | v1/src/handlers/ws_rig.rs:21 | removing an address that is not listed leaves the list unchanged |
| Registry.WithoutIdempotent | v1/src/handlers/ws_frontend.rs:25 | a second `stopped` of the same address is harmless |
| Registry.WithoutCommutes | v1/src/handlers/ws_frontend.rs:23-26 | two connections stopping in either order leave the same list |
| Registry.StartThenStop | v1/src/handlers/ws_frontend.rs:18-26 | a connection that starts and then stops leaves the list as it found it |
| Registry.WithoutLength | v1/src/handlers/ws_rig.rs:21 | the list shrinks by exactly the number of entries equal to the address |
| Registry.SetMembership | v1/src/handlers/websocket_handler.rs:40-49 | after any sequence of start/stop events, an address is in the set iff its last event was a start |
| Registry.ListAgreesWithSet | v1/src/handlers/ws_rig.rs:14-22 | after the same events, the `Vec` registry and the `HashSet` registry hold the same addresses |
| Registry.UnstartedNotListed | v1/src/handlers/ws_rig.rs:14-17 | only a `started` puts an address on the list |
| Registry.ListHasNoDuplicates | v1/src/handlers/ws_frontend.rs:18-26 | when each actor starts once, the list holds each address at most once and has as many entries as the set |
| EchoSocket.EchoReply | v1/src/handlers/server_websocket.rs:53-67 | there is a reply iff the frame is text that is not GPU data, or a ping; the text reply is "Server received: " plus the text; a ping p gets pong p |
| EchoSocket.EchoReplyRecoversText | v1/src/handlers/websocket_handler.rs:58-63 | a text reply comes only from a text frame, and stripping the prefix gives the received text back |
| EchoSocket.EchoReplyInjective | v1/src/handlers/server_websocket.rs:59-62 | different command texts get different replies |
| EchoSocket.HandleFrame | v1/src/handlers/websocket_handler.rs:54-68 | the reply, if any, is written to the sender's socket only; mailboxes are unchanged |
| EchoSocket.SendCommandToRigs | v1/src/handlers/server_websocket.rs:89-98 | the loop over the set posts the command once to every registered address (`PostedToAll`); sockets and the registry are unchanged |
| RigSocket.CommandAck | v1/src/handlers/ws_rig.rs:26-38 | a reply exists iff the frame is text; it reads "Command '", then the text, then "' sent to rigs" |
| RigSocket.CommandAckRoundTrip | v1/src/handlers/ws_rig.rs:36 | the command can be read back from its acknowledgement |
| RigSocket.HandleFrame | v1/src/handlers/ws_rig.rs:25-38 | a text frame writes exactly one acknowledgement to the sender; other frames write nothing; the client list is not touched |
| FrontendSocket.ParseFarm | v1/src/handlers/handler_frontend.rs:6-11 | a request deserialises as a `Farm` iff `id` is an integer, `name` a string, and `location` missing, null or a string; the fields are carried over |
| FrontendSocket.Dispatch | v1/src/handlers/ws_frontend.rs:39-71 | a store call is made only for the request's own type; the error cases ("Unknown command", "Invalid data for CREATE_FARM", "Invalid data for EDIT_FARM", "Invalid farm ID") occur exactly when stated; `DELETE_FARM` uses id 0 for a missing id |
| FrontendSocket.EditAddressesPayloadFarm | v1/src/handlers/ws_frontend.rs:48-52 | an edit's path id always equals the id in its payload |
| FrontendSocket.DeleteNeverFails | v1/src/handlers/ws_frontend.rs:57-61 | `DELETE_FARM` always calls the store and never yields `ERROR` |
| FrontendSocket.Respond | v1/src/handlers/ws_frontend.rs:39-71 | there is no reply exactly when the store call panics; an error gives `{type: ERROR, message}`; a call gives type `<TYPE>_RESPONSE` with the store's text under `message` for deletes and under `data` otherwise |
| FrontendSocket.ReplyTypeFollowsRequest | v1/src/handlers/ws_frontend.rs:39-70 | when a reply is sent, its type is `ERROR` iff dispatch failed, and otherwise the request's type with `_RESPONSE` appended |
| FrontendSocket.ErrorsMakeNoStoreCall | v1/src/handlers/ws_frontend.rs:39-70 | a failed request's reply does not depend on the store, and it is always sent |
| FrontendSocket.ReplyTo | v1/src/handlers/ws_frontend.rs:33-71 | a text frame gets no reply exactly when its text is not JSON (the parse `unwrap` panics) or its store call panics; otherwise it gets `Respond`'s reply |
| FrontendSocket.OnlyShowRigsGoesUnanswered | v1/src/handlers/handler_frontend.rs:68-79 | when only `show_rigs` can panic, a well-formed request goes unanswered only if it is `SHOW_RIGS` with an integer id and that rig query failed |
| FrontendSocket.HandleFrame | v1/src/handlers/ws_frontend.rs:29-77 | a text frame posts `ReplyTo`'s rendered reply to the sender's own mailbox, or nothing when `ReplyTo` gives none (a panic in the spawned task); other frames change nothing; no socket is written |

## Left out

- SQL and sqlx: queries, the pool, `.await` and SQLite foreign-key or cascade behaviour are not modelled. Query results are inputs, and the row order of the join is whatever the store returns.
- The actor runtime (actix): `Arc<Mutex<..>>`, `actix_rt::spawn` and asynchronous delivery are not modelled. `do_send` is a synchronous append to a mailbox, and the spawned reply task of the frontend actor runs to completion inside the handler.
- `listen_for_commands` (server_websocket.rs:101-105, websocket_handler.rs:90-98) is an endless `yield_now` loop with no observable effect.
- The debug `println!` calls are not modelled.
- serde parsing and serialisation are parameters (`parse`, `render`, `isGpuData`). The frontend `parse` returns `None` on text that is not JSON: the handler's `unwrap` panics there, and the model posts no reply.
- The `f64` readings `temp`, `watt` and `fan_speed` are `real`. They are only copied or defaulted to 0; `fan_speed` appears only inside `GpuData`, which is abstracted by `isGpuData`.
- The single-statement CRUD handlers are not modelled: `create_farm`, `update_farm` and `delete_farm` of farm.rs, `v1/src/handlers/gpu.rs`, and the store side of `v1/src/handlers/handler_frontend.rs`. The frontend dispatch sees their results only through `store`: a text, or `None` for the panic of `show_rigs`.
- `v1/src/handlers/handler_rig.rs` is a print-only stub.
- Route wiring in `v1/src/main.rs` is not modelled. That file imports a `get_farm_by_id` that farm.rs does not define, and ws_frontend.rs:69 has a stray `,,`. The model follows the evident intent of both.
- The browser JavaScript under `v1/static/js` and `static/js` is not modelled.
- `RigTable` holds only the `rig` table. The model does not relate it to the join rows given to `GetFarms`, so it states nothing about a moved rig appearing under its new farm in a later aggregation.
- Actor addresses are natural numbers. The runtime's guarantee that an actor's `stopped` runs on every termination path is outside the model.
