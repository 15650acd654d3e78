/** `RawTelemetryFunction.RunAsync`: the batch loop that decodes each event,
    upserts the decoded state, and dead-letters every failure. */
module RawTelemetry {
  import opened Wrappers
  import opened DroneStates
  import opened TelemetryProcessing

  /** The envelope sent to the dead-letter queue. */
  datatype DeadLetterMessage = DeadLetterMessage(issue: string, messageBody: Bytes, deviceState: Option<DeviceState>)

  /** What the loop cannot see: the serializer, and the exceptions the
      container's upsert (by message position) and the queue's send (by call
      number) throw, if any. */
  datatype Environment = Environment(
    decode: Bytes -> Result<DroneState, string>,
    upsertFault: nat -> Option<string>,
    sendFault: nat -> Option<string>)

  /** The state the loop carries: the container's documents, the queue, the
      number of send calls made, the last decoded `deviceState`, and the
      exception that escaped the function, if one did. */
  datatype BatchState = BatchState(
    store: map<string, DeviceState>,
    queue: seq<DeadLetterMessage>,
    sends: nat,
    deviceState: Option<DeviceState>,
    escaped: Option<string>)

  function Start(store: map<string, DeviceState>): BatchState {
    BatchState(store, [], 0, None, None)
  }

  /** One `SendMessageAsync` call; a failing call throws out of the catch block
      that made it. */
  function Send(env: Environment, st: BatchState, msg: DeadLetterMessage): (r: Result<BatchState, string>)
    ensures r.Ok? ==> r.value == st.(queue := st.queue + [msg], sends := st.sends + 1)
    ensures r.Err? <==> env.sendFault(st.sends).Some?
  {
    match env.sendFault(st.sends)
    case None => Ok(st.(queue := st.queue + [msg], sends := st.sends + 1))
    case Some(e) => Err(e)
  }

  /** The outer catch: dead-letter the message with the current `deviceState`;
      if that send throws, the exception leaves `RunAsync`. */
  function OuterCatch(env: Environment, st: BatchState, issue: string, body: Bytes): (r: BatchState)
    ensures r.sends == st.sends + 1 && r.store == st.store && r.deviceState == st.deviceState
    ensures env.sendFault(st.sends).None? ==> r.escaped == st.escaped
    ensures env.sendFault(st.sends).Some? ==> r.escaped == env.sendFault(st.sends)
  {
    match Send(env, st, DeadLetterMessage(issue, body, st.deviceState))
    case Ok(s) => s
    case Err(e) => st.(sends := st.sends + 1, escaped := Some(e))
  }

  /** The body of the loop for the message at position `i`. */
  function Step(env: Environment, st: BatchState, i: nat, body: Bytes): (r: BatchState)
    ensures Deserialize(body, env.decode).Err? ==> r.deviceState == st.deviceState && r.store == st.store
    ensures Deserialize(body, env.decode).Ok? ==> r.deviceState == Some(Deserialize(body, env.decode).value)
  {
    match Deserialize(body, env.decode)
    case Err(e) => OuterCatch(env, st, e, body)
    case Ok(ds) =>
      var st1 := st.(deviceState := Some(ds));
      match env.upsertFault(i)
      case None => st1.(store := st1.store[ds.deviceId := ds])
      case Some(e) =>
        match Send(env, st1, DeadLetterMessage(e, body, Some(ds)))
        case Ok(s) => s
        case Err(e2) => OuterCatch(env, st1.(sends := st1.sends + 1), e2, body)
  }

  /** The state after the loop has run over `messages` (the batch so far); an
      escaped exception ends the loop. */
  function Run(env: Environment, store: map<string, DeviceState>, messages: seq<Bytes>): BatchState
    decreases |messages|
  {
    if messages == [] then Start(store)
    else
      var st := Run(env, store, messages[..|messages| - 1]);
      if st.escaped.Some? then st else Step(env, st, |messages| - 1, messages[|messages| - 1])
  }

  /** The loop body, written as the source's nested try/catch blocks. */
  method ProcessMessage(env: Environment, st: BatchState, i: nat, body: Bytes) returns (next: BatchState)
    ensures next == Step(env, st, i, body)
  {
    next := st;
    var decoded := Deserialize(body, env.decode);
    var caught: Option<string> := None;
    if decoded.Err? {
      caught := Some(decoded.error);
    } else {
      var ds := decoded.value;
      next := next.(deviceState := Some(ds));
      var upsertFault := env.upsertFault(i);
      if upsertFault.None? {
        next := next.(store := next.store[ds.deviceId := ds]);
      } else {
        // inner catch
        var sent := Send(env, next, DeadLetterMessage(upsertFault.value, body, Some(ds)));
        if sent.Ok? {
          next := sent.value;
        } else {
          next := next.(sends := next.sends + 1);
          caught := Some(sent.error);
        }
      }
    }
    if caught.Some? {
      // outer catch
      var sent := Send(env, next, DeadLetterMessage(caught.value, body, next.deviceState));
      if sent.Ok? {
        next := sent.value;
      } else {
        next := next.(sends := next.sends + 1, escaped := Some(sent.error));
      }
    }
  }

  /** `RunAsync` over a batch: every message is visited in order until an
      exception escapes. */
  method RunAsync(env: Environment, store: map<string, DeviceState>, messages: seq<Bytes>) returns (final: BatchState)
    ensures final == Run(env, store, messages)
  {
    final := Start(store);
    var i := 0;
    while i < |messages|
      invariant 0 <= i <= |messages|
      invariant final == Run(env, store, messages[..i])
      invariant final.escaped.None?
    {
      assert messages[..i + 1][..i] == messages[..i];
      final := ProcessMessage(env, final, i, messages[i]);
      i := i + 1;
      if final.escaped.Some? {
        RunStopsOnEscape(env, store, messages, i);
        return;
      }
    }
    assert messages[..|messages|] == messages;
  }

  /** Once an exception has escaped, the rest of the batch is not processed. */
  lemma {:induction false} RunStopsOnEscape(env: Environment, store: map<string, DeviceState>, messages: seq<Bytes>, n: nat)
    requires n <= |messages|
    requires Run(env, store, messages[..n]).escaped.Some?
    ensures Run(env, store, messages) == Run(env, store, messages[..n])
    decreases |messages| - n
  {
    if n == |messages| {
      assert messages[..n] == messages;
    } else {
      var m := messages[..|messages| - 1];
      assert m[..n] == messages[..n];
      RunStopsOnEscape(env, store, m, n);
    }
  }

  /** The last state decoded in the batch so far, or null: what `deviceState`
      holds, since it is declared once before the loop and never reset. */
  function LastDecoded(env: Environment, messages: seq<Bytes>): Option<DeviceState>
    decreases |messages|
  {
    if messages == [] then None
    else match Deserialize(messages[|messages| - 1], env.decode)
      case Ok(ds) => Some(ds)
      case Err(_) => LastDecoded(env, messages[..|messages| - 1])
  }

  /** The dead letter the message at position `i` produces when every send
      succeeds: none on success; the upsert's exception with the decoded
      state; or the decoder's exception with the previous message's state. */
  function DeadLetterFor(env: Environment, messages: seq<Bytes>, i: nat): seq<DeadLetterMessage>
    requires i < |messages|
  {
    match Deserialize(messages[i], env.decode)
    case Err(e) => [DeadLetterMessage(e, messages[i], LastDecoded(env, messages[..i]))]
    case Ok(ds) =>
      match env.upsertFault(i)
      case None => []
      case Some(e) => [DeadLetterMessage(e, messages[i], Some(ds))]
  }

  /** The queue message by message, each message judged on its own. */
  function ExpectedQueue(env: Environment, messages: seq<Bytes>): seq<DeadLetterMessage>
    decreases |messages|
  {
    if messages == [] then []
    else ExpectedQueue(env, messages[..|messages| - 1]) + DeadLetterFor(env, messages, |messages| - 1)
  }

  /** The state last upserted under `id` in the batch, if any. */
  function LastStored(env: Environment, messages: seq<Bytes>, id: string): Option<DeviceState>
    decreases |messages|
  {
    if messages == [] then None
    else
      var i := |messages| - 1;
      match Deserialize(messages[i], env.decode)
      case Ok(ds) =>
        if env.upsertFault(i).None? && ds.deviceId == id then Some(ds)
        else LastStored(env, messages[..i], id)
      case Err(_) => LastStored(env, messages[..i], id)
  }

  /** Per-message isolation: while the queue accepts every send, no exception
      escapes, every message is visited in order, each failing message adds
      exactly one dead letter (and a successful one none), and `deviceState`
      is the last decoded state. */
  lemma {:induction false} BatchIsolation(env: Environment, store: map<string, DeviceState>, messages: seq<Bytes>)
    requires forall k :: env.sendFault(k).None?
    ensures var r := Run(env, store, messages);
      && r.escaped.None?
      && r.queue == ExpectedQueue(env, messages)
      && r.sends == |r.queue|
      && r.deviceState == LastDecoded(env, messages)
  {
    if messages != [] {
      var prefix := messages[..|messages| - 1];
      BatchIsolation(env, store, prefix);
      assert messages[..|messages| - 1] == prefix;
    }
  }

  /** While the queue accepts every send, each document is the whole state of
      the last message stored under its id (no field merge on this path), and
      a device no message stored keeps its document. */
  lemma {:induction false} BatchStore(env: Environment, store: map<string, DeviceState>, messages: seq<Bytes>, id: string)
    requires forall k :: env.sendFault(k).None?
    ensures var r := Run(env, store, messages);
      && (LastStored(env, messages, id).Some? ==> id in r.store && r.store[id] == LastStored(env, messages, id).value)
      && (LastStored(env, messages, id).None? ==>
            (id in r.store <==> id in store) && (id in store ==> r.store[id] == store[id]))
  {
    if messages != [] {
      var prefix := messages[..|messages| - 1];
      BatchStore(env, store, prefix, id);
      BatchIsolation(env, store, prefix);
    }
  }

  /** When the upsert throws and then the dead-letter send inside the inner
      catch throws too, the outer catch sends a second dead letter for the
      same message, carrying the send's exception. */
  lemma SecondDeadLetterOnSendFailure(env: Environment, store: map<string, DeviceState>, body: Bytes)
    requires env.decode(body).Ok?
    requires env.upsertFault(0).Some? && env.sendFault(0).Some? && env.sendFault(1).None?
    ensures var r := Run(env, store, [body]);
      && r.sends == 2
      && r.queue == [DeadLetterMessage(env.sendFault(0).value, body, Some(Flatten(env.decode(body).value)))]
      && r.store == store
      && r.escaped.None?
  {
    assert [body][..0] == [];
  }

  /** When the outer catch's own send throws, the exception leaves `RunAsync`
      and no later message of the batch is processed. */
  lemma EscapeSkipsRest(env: Environment, store: map<string, DeviceState>, first: Bytes, rest: seq<Bytes>)
    requires env.decode(first).Err? && env.sendFault(0).Some?
    ensures Run(env, store, [first] + rest) == Start(store).(sends := 1, escaped := env.sendFault(0))
  {
    var ms := [first] + rest;
    assert ms[..1] == [first];
    assert [first][..0] == [];
    RunStopsOnEscape(env, store, ms, 1);
  }
}
