/** The `FrontendWebSocket` actor of v1/src/handlers/ws_frontend.rs: a text
    frame holds a JSON request whose `type` field selects one store operation,
    and a spawned task posts one JSON reply back to the sender. The store
    operations of handler_frontend.rs each return a text, which the model takes
    as given, except that `show_rigs` panics when its rig query fails; a
    panicking task posts nothing. */
module FrontendSocket {
  import opened Values
  import opened Connections

  /** The `Farm` record a request deserialises to (handler_frontend.rs). */
  datatype FarmPayload = FarmPayload(id: Id, name: string, location: Option<string>)

  /** What the `location` member of a request holds, as far as deserialisation cares. */
  datatype LocationField = Missing | Null | Str(s: string) | NotAString

  /** A request, as the handler reads it: `kind` is `message["type"].as_str()`,
      `id` is `message["id"].as_i64()`, `name` is the `name` member when it is
      a string. */
  datatype Request = Request(kind: Option<string>, id: Option<Id>, name: Option<string>, location: LocationField)

  /** `serde_json::from_value::<Farm>(message)`: it succeeds when `id` is an
      integer, `name` a string, and `location` missing, null or a string. */
  function ParseFarm(m: Request): (r: Option<FarmPayload>)
    ensures r.Some? <==> m.id.Some? && m.name.Some? && !m.location.NotAString?
    ensures r.Some? ==>
      && r.value.id == m.id.value
      && r.value.name == m.name.value
      && r.value.location == (if m.location.Str? then Some(m.location.s) else None)
  {
    if m.id.Some? && m.name.Some? && !m.location.NotAString? then
      Some(FarmPayload(m.id.value, m.name.value, if m.location.Str? then Some(m.location.s) else None))
    else None
  }

  /** One call into the store (create_farm, edit_farm, delete_farm, show_rigs). */
  datatype StoreCall =
    | CreateFarm(farm: FarmPayload)
    | EditFarm(farmId: Id, farm: FarmPayload)
    | DeleteFarm(farmId: Id)
    | ShowRigs(farmId: Id)

  /** The `type` tag of the request that leads to `call`. */
  function RequestType(call: StoreCall): string
  {
    match call
    case CreateFarm(_) => "CREATE_FARM"
    case EditFarm(_, _) => "EDIT_FARM"
    case DeleteFarm(_) => "DELETE_FARM"
    case ShowRigs(_) => "SHOW_RIGS"
  }

  predicate IsKnownType(kind: Option<string>)
  {
    kind == Some("CREATE_FARM") || kind == Some("EDIT_FARM") || kind == Some("DELETE_FARM") || kind == Some("SHOW_RIGS")
  }

  /** What the handler does with a request: call the store, or fail with a message. */
  datatype Action = Call(call: StoreCall) | Fail(message: string)

  /** `as_i64().unwrap_or_default()`. */
  function IdOrZero(id: Option<Id>): Id
  {
    if id.Some? then id.value else 0
  }

  /** The `match message["type"].as_str()` of the handler. */
  function Dispatch(m: Request): (a: Action)
    ensures a.Call? ==> m.kind == Some(RequestType(a.call))
    ensures a.Fail? <==>
      || !IsKnownType(m.kind)
      || ((m.kind == Some("CREATE_FARM") || m.kind == Some("EDIT_FARM")) && ParseFarm(m).None?)
      || (m.kind == Some("SHOW_RIGS") && m.id.None?)
    ensures !IsKnownType(m.kind) ==> a == Fail("Unknown command")
    ensures m.kind == Some("CREATE_FARM") && ParseFarm(m).None? ==> a == Fail("Invalid data for CREATE_FARM")
    ensures m.kind == Some("EDIT_FARM") && ParseFarm(m).None? ==> a == Fail("Invalid data for EDIT_FARM")
    ensures m.kind == Some("SHOW_RIGS") && m.id.None? ==> a == Fail("Invalid farm ID")
    ensures a.Call? && (a.call.CreateFarm? || a.call.EditFarm?) ==> Some(a.call.farm) == ParseFarm(m)
    ensures m.kind == Some("DELETE_FARM") ==> a == Call(DeleteFarm(if m.id.Some? then m.id.value else 0))
    ensures a.Call? && a.call.ShowRigs? ==> m.id == Some(a.call.farmId)
  {
    if m.kind == Some("CREATE_FARM") then
      match ParseFarm(m)
      case Some(farm) => Call(CreateFarm(farm))
      case None => Fail("Invalid data for CREATE_FARM")
    else if m.kind == Some("EDIT_FARM") then
      var id := IdOrZero(m.id);
      match ParseFarm(m)
      case Some(farm) => Call(EditFarm(id, farm))
      case None => Fail("Invalid data for EDIT_FARM")
    else if m.kind == Some("DELETE_FARM") then
      Call(DeleteFarm(IdOrZero(m.id)))
    else if m.kind == Some("SHOW_RIGS") then
      if m.id.Some? then Call(ShowRigs(m.id.value)) else Fail("Invalid farm ID")
    else
      Fail("Unknown command")
  }

  /** An edit always addresses the farm its payload names: a request whose `id`
      is missing does not deserialise, so the default id 0 is never used. */
  lemma EditAddressesPayloadFarm(m: Request)
    requires Dispatch(m).Call? && Dispatch(m).call.EditFarm?
    ensures Dispatch(m).call.farmId == Dispatch(m).call.farm.id
  {
  }

  /** A deletion never fails, whatever the request carries besides its type. */
  lemma DeleteNeverFails(m: Request)
    requires m.kind == Some("DELETE_FARM")
    ensures Dispatch(m).Call? && Dispatch(m).call.DeleteFarm?
  {
  }

  /** The reply object `{ "type": kind, key: value }`. */
  datatype Reply = Reply(kind: string, key: string, value: string)

  /** What a store call yields: `Some(text)`, or `None` when the call panics.
      In handler_frontend.rs only `show_rigs` can panic (the `expect` on its
      rig query); the other three always return a text. */
  ghost predicate OnlyShowRigsPanics(store: StoreCall -> Option<string>)
  {
    forall call: StoreCall :: !call.ShowRigs? ==> store(call).Some?
  }

  /** The reply to an action, given what the store yields for each call;
      `None` when the spawned task panics inside the store call. */
  function Respond(a: Action, store: StoreCall -> Option<string>): (r: Option<Reply>)
    ensures r.None? <==> a.Call? && store(a.call).None?
    ensures a.Fail? ==> r == Some(Reply("ERROR", "message", a.message))
    ensures a.Call? && r.Some? ==>
      r.value.kind == RequestType(a.call) + "_RESPONSE" && r.value.value == store(a.call).value
    ensures a.Call? && r.Some? ==> (r.value.key == "message" <==> a.call.DeleteFarm?)
    ensures a.Call? && r.Some? ==> (r.value.key == "data" <==> !a.call.DeleteFarm?)
  {
    match a
    case Fail(message) => Some(Reply("ERROR", "message", message))
    case Call(call) =>
      match store(call)
      case None => None
      case Some(text) =>
        Some(Reply(RequestType(call) + "_RESPONSE", if call.DeleteFarm? then "message" else "data", text))
  }

  /** The reply to a request names the request's type with `_RESPONSE`
      appended, or is an `ERROR`; never both. */
  lemma ReplyTypeFollowsRequest(m: Request, store: StoreCall -> Option<string>)
    requires Respond(Dispatch(m), store).Some?
    ensures var r := Respond(Dispatch(m), store).value;
      && (r.kind == "ERROR" <==> Dispatch(m).Fail?)
      && (r.kind != "ERROR" ==> m.kind.Some? && r.kind == m.kind.value + "_RESPONSE")
  {
    var a := Dispatch(m);
    if a.Call? {
      var r := Respond(a, store).value;
      assert |r.kind| > |"ERROR"|;
    }
  }

  /** A failed request does not consult the store: its reply is the same
      whatever the store would have answered, and it is always sent. */
  lemma ErrorsMakeNoStoreCall(m: Request, store1: StoreCall -> Option<string>, store2: StoreCall -> Option<string>)
    requires Dispatch(m).Fail?
    ensures Respond(Dispatch(m), store1) == Respond(Dispatch(m), store2)
    ensures Respond(Dispatch(m), store1).Some?
  {
  }

  /** The reply a text frame gets: `None` when the text is not JSON (the
      `unwrap` of the parse panics) or when the store call panics.
      `parse` is the JSON parser, `None` on malformed text. */
  function ReplyTo(text: string, parse: string -> Option<Request>, store: StoreCall -> Option<string>): (r: Option<Reply>)
    ensures r.None? <==>
      parse(text).None? || (Dispatch(parse(text).value).Call? && store(Dispatch(parse(text).value).call).None?)
    ensures r.Some? ==> r == Respond(Dispatch(parse(text).value), store)
  {
    match parse(text)
    case None => None
    case Some(m) => Respond(Dispatch(m), store)
  }

  /** With the store of handler_frontend.rs, a well-formed request goes
      unanswered only when it is a `SHOW_RIGS` with an integer id whose rig
      query failed. */
  lemma OnlyShowRigsGoesUnanswered(text: string, parse: string -> Option<Request>, store: StoreCall -> Option<string>)
    requires OnlyShowRigsPanics(store)
    requires parse(text).Some? && ReplyTo(text, parse, store).None?
    ensures var m := parse(text).value;
      m.kind == Some("SHOW_RIGS") && m.id.Some? && store(ShowRigs(m.id.value)).None?
  {
    var m := parse(text).value;
    var a := Dispatch(m);
    assert a.Call? && store(a.call).None?;
    assert a.call.ShowRigs?;
  }

  /** The stream handler of connection `self`. `render` is the JSON serialiser.
      A text frame posts at most one reply, to the sender's own mailbox, and
      exactly one unless the task panics; other frames change nothing. The
      client list is not consulted. */
  method HandleFrame(socks: Sockets, self: ConnId, frame: Frame, parse: string -> Option<Request>,
                     store: StoreCall -> Option<string>, render: Reply -> string)
    modifies socks
    ensures frame.Text? && ReplyTo(frame.text, parse, store).Some? ==>
      socks.mailbox == old(socks.mailbox)[self :=
        old(socks.Pending(self)) + [render(ReplyTo(frame.text, parse, store).value)]]
    ensures !(frame.Text? && ReplyTo(frame.text, parse, store).Some?) ==> socks.mailbox == old(socks.mailbox)
    ensures socks.wire == old(socks.wire)
  {
    if frame.Text? {
      var message := parse(frame.text);
      if message.Some? {
        var response := Respond(Dispatch(message.value), store);
        if response.Some? {
          socks.Post(self, render(response.value));
        }
      }
    }
  }
}
