# Drone telemetry: simulator, ingestion and status authorization in Dafny

This project models the core of a serverless drone-telemetry reference system:

- **The simulator.** `TelemetryGenerator` builds first frames, key frames and deltas. `Program.GenerateTelemetryAsync` checks its arguments and runs the producer loop that chooses when to ask for a key frame. `ObjectPool<T>` hands out pooled Event Hub clients.
- **The wire record.** `DroneState` and its `DroneFlightMode` enumeration, with the protocol-buffer field numbers and `ToString`.
- **Ingestion.** `TelemetryProcessor.Deserialize` flattens a decoded record into the stored `DeviceState` document. `RawTelemetryFunction.RunAsync` decodes and upserts each message of a batch and dead-letters failures. `StateChangeProcessor.UpdateState` merges a partial state into the stored document, field by field.
- **Status authorization.** The C# role check, the C# request helpers that read the client-principal header, the C# `GetStatusFunction.Run`, and the Node.js authorization module.

Each source file is one Dafny module:

| module | file |
|---|---|
| `DroneStates` | `drone_state.dfy` |
| `TelemetryProcessing` | `telemetry_processor.dfy` |
| `StateChange` | `state_change_processor.dfy` |
| `RawTelemetry` | `raw_telemetry_function.dfy` |
| `Generator` | `telemetry_generator.dfy` |
| `Producer` | `producer.dfy` |
| `Pooling` | `object_pool.dfy` |
| `RoleAuthorization` | `claims_authorization.dfy` |
| `HttpAuthorization` | `http_authorization.dfy` |
| `GetStatus` | `get_status_function.dfy` |
| `NodeAuthorization` | `node_authorization.dfy` |
| `NodeBuffer` | `node_buffer.dfy` (the `Buffer` text encodings it relies on) |

`Wrappers` (`wrappers.dfy`) holds `Option` and `Result`.

### How the model is shaped

Code that computes a value is modelled as functions and lemmas. Code that changes state is modelled as classes and methods:

- the document client and the state-change processor;
- the generator's flight-mode counter;
- the object pool and its handles;
- the producer loop and the batch loop, as methods with `while` loops proved against specification functions.

### Parameters and error outcomes

What the code cannot see, or what depends on time, randomness or a library, is a parameter of the model:

- the protobuf decoder;
- the exceptions the Cosmos read, the Cosmos upsert and the queue send throw;
- the random draws;
- the trigonometry;
- the base64 and JSON steps of decoding the client-principal header (the Node.js module's byte-to-text step is modelled, in `NodeBuffer`);
- the cancellation checks.

An exception that one of these parameters injects, or that the code itself raises, is an error outcome (`Result`, `Option` or a dedicated datatype), not a precondition. The exceptions named under "## Left out" are not modelled.

### Behaviours of the code worth noting

- **Dead-letter state after a decode failure.** The dead letter of a message that fails to decode carries the `deviceState` variable, which is never reset between messages. So it carries the previous message's decoded state, or null for the first message (`RawTelemetry.BatchIsolation`, `RawTelemetry.DeadLetterFor`).
- **No merge in the batch function.** `RawTelemetryFunction` upserts the whole decoded state; only `StateChangeProcessor` merges (`RawTelemetry.BatchStore`).
- **Exceptions can abort a batch.** A dead-letter send that fails inside the outer catch leaves `RunAsync`, and the rest of the batch is skipped (`RawTelemetry.EscapeSkipsRest`).
- **Flight-mode cycle.** The generator's counter runs 1, 2, 3, 4, 5, 6, 0, 1, …. It therefore emits Unknown (0), and 6, which names no member of `DroneFlightMode` (`Generator.UndefinedModeOncePerCycle`).
- **Health flags.** The accelerometer flag uses `> 50` while the other two flags use `< 50` (`Generator.KeyFrame`).
- **Read exceptions in `UpdateState`.** Only `DocumentClientException` is caught. Any other exception from the read, or from the cast of its resource, leaves `UpdateState` before the upsert (`StateChange.StateChangeProcessor.UpdateState`).

## Model

Source paths are relative to the repository root.

| member | source | states |
|---|---|---|
| DroneStates.Code | src/TelemetrySerialization/Serverless.Serialization/Model/DroneState.cs:30-49 | every member's value lies in 0..5; the value is 0 exactly for Unknown and 5 exactly for Offline |
| DroneStates.MemberOf | src/TelemetrySerialization/Serverless.Serialization/Model/DroneState.cs:30-49 | an integer names a member iff it lies in 0..5, and that member's value is the integer |
| DroneStates.FlightModeCodes | src/TelemetrySerialization/Serverless.Serialization/Model/DroneState.cs:30-49 | distinct members have distinct values, and each value maps back to its own member |
| DroneStates.Name | src/TelemetrySerialization/Serverless.Serialization/Model/DroneState.cs:26 | `Enum.GetName` yields a name iff the value names a member (null otherwise) |
| DroneStates.ProtoTag | src/TelemetrySerialization/Serverless.Serialization/Model/DroneState.cs:7-23 | each property of the record is serialized under a field number in 1..6 |
| DroneStates.ProtoTagsDistinct | src/TelemetrySerialization/Serverless.Serialization/Model/DroneState.cs:7-23 | the six properties carry six distinct field numbers |
| DroneStates.ToString | src/TelemetrySerialization/Serverless.Serialization/Model/DroneState.cs:25-27 | succeeds iff flight mode, position and health are all present; a null flight mode throws ArgumentNull first, a missing triple throws InvalidOperation; a success starts with "DeviceId: " and the id; a delta record never prints |
| TelemetryProcessing.EmptyState | src/DroneTelemetry/DroneTelemetryFunctionApp/TelemetryProcessor.cs:22-23 | the fresh document holds the id and no measured field |
| TelemetryProcessing.Flatten | src/DroneTelemetry/DroneTelemetryFunctionApp/TelemetryProcessor.cs:22-45 | each present part is copied field by field (health flags by name), absent parts stay null; the coordinate and health triples are all-or-none; empty iff the record is a delta, full iff it is complete; unflattening gives the record back |
| TelemetryProcessing.FlattenOnto | src/DroneTelemetry/DroneTelemetryFunctionApp/TelemetryProcessor.cs:22-45 | every well-formed document is the flattening of some record |
| TelemetryProcessing.Deserialize | src/DroneTelemetry/DroneTelemetryFunctionApp/TelemetryProcessor.cs:16-46 | fails exactly when the serializer throws, with its exception; otherwise a well-formed document with the record's id, from which the decoded record is recovered |
| TelemetryProcessing.KeyFrameCreatesDocument | src/DroneTelemetry/DroneTelemetryFunction.Tests/TelemetryProcessorFixture.cs:13-43 | the test's full key frame flattens to the eight expected field values |
| TelemetryProcessing.PartialStateCreatesDocument | src/DroneTelemetry/DroneTelemetryFunction.Tests/TelemetryProcessorFixture.cs:45-72 | a record with only an id flattens to a document with all eight fields null |
| StateChange.Coalesce | src/DroneTelemetry/DroneTelemetryFunctionApp/StateChangeProcessor.cs:38-45 | `??`: the incoming value wins when present, otherwise the stored one; the result is null only when both are |
| StateChange.Merge | src/DroneTelemetry/DroneTelemetryFunctionApp/StateChangeProcessor.cs:38-45 | keeps the stored id; every field set in either input is set in the result; an empty update returns the stored document; an empty stored document takes the update |
| StateChange.MergeIdempotent | src/DroneTelemetry/DroneTelemetryFunctionApp/StateChangeProcessor.cs:38-45 | merging the same update twice equals merging it once |
| StateChange.MergeComposes | src/DroneTelemetry/DroneTelemetryFunctionApp/StateChangeProcessor.cs:38-45 | two successive merges equal one merge of the combined update, later values winning |
| StateChange.DocumentClient.ReadDocument | src/DroneTelemetry/DroneTelemetryFunctionApp/StateChangeProcessor.cs:32-35 | an injected `DocumentClientException` is reported with its status, any other injected exception as thrown; otherwise the stored document under the id, or status 404 when there is none |
| StateChange.DocumentClient.UpsertDocument | src/DroneTelemetry/DroneTelemetryFunctionApp/StateChangeProcessor.cs:55-56 | the call is logged; a null document is rejected, an injected exception is thrown, and either way the store is unchanged; otherwise the document replaces the entry under its id and is returned; keys stay equal to document ids |
| StateChange.UpsertTarget | src/DroneTelemetry/DroneTelemetryFunctionApp/StateChangeProcessor.cs:28-56 | defined when the read ends in a document or a `DocumentClientException`: null exactly when that exception's status is not 404; a missing document yields the update itself; any target covers every field of the update |
| StateChange.StoreAfterChangesOneEntry | src/DroneTelemetry/DroneTelemetryFunctionApp/StateChangeProcessor.cs:24-57 | only the update's entry can change; keys stay equal to ids; an escaping read or upsert exception changes nothing; after a successful or 404 read and upsert that entry is set and covers the update and the previous document |
| StateChange.UpdateIdempotent | src/DroneTelemetry/DroneTelemetryFunctionApp/StateChangeProcessor.cs:24-57 | applying the same update twice leaves the store as applying it once |
| StateChange.EmptyUpdateKeepsStore | src/DroneTelemetry/DroneTelemetryFunctionApp/StateChangeProcessor.cs:38-45 | an update with no measured field leaves an existing store unchanged |
| StateChange.StateChangeProcessor.constructor | src/DroneTelemetry/DroneTelemetryFunctionApp/StateChangeProcessor.cs:17-22 | the processor keeps the client it is given |
| StateChange.StateChangeProcessor.UpdateState | src/DroneTelemetry/DroneTelemetryFunctionApp/StateChangeProcessor.cs:24-57 | a read exception other than `DocumentClientException` escapes with no upsert and the store unchanged; otherwise exactly one upsert, of `UpsertTarget`, whose null or thrown exception is the result, else the stored target; the new store is `StoreAfter` |
| StateChange.MergeDocumentUnion | src/DroneTelemetry/DroneTelemetryFunction.Tests/StateChangeProcessorFixture.cs:85-109 | stored {Battery 0.5} merged with a position gives the union of both |
| StateChange.CreateDocumentOnMissing | src/DroneTelemetry/DroneTelemetryFunction.Tests/StateChangeProcessorFixture.cs:66-83 | with no stored document, the update is stored as-is |
| RawTelemetry.Send | src/DroneTelemetry/DroneTelemetryFunctionApp/RawTelemetryFunction.cs:51-52 | a send appends the dead letter and counts the call; it throws exactly when the queue faults on that call |
| RawTelemetry.OuterCatch | src/DroneTelemetry/DroneTelemetryFunctionApp/RawTelemetryFunction.cs:56-65 | one more send call with the current `deviceState`, store untouched; the send's exception, if any, escapes |
| RawTelemetry.Step | src/DroneTelemetry/DroneTelemetryFunctionApp/RawTelemetryFunction.cs:36-65 | a decode failure keeps `deviceState` and the store; a decoded message becomes the new `deviceState` |
| RawTelemetry.ProcessMessage | src/DroneTelemetry/DroneTelemetryFunctionApp/RawTelemetryFunction.cs:36-65 | the nested try/catch body computes `Step` |
| RawTelemetry.RunAsync | src/DroneTelemetry/DroneTelemetryFunctionApp/RawTelemetryFunction.cs:20-67 | the batch loop ends in the state `Run` specifies |
| RawTelemetry.RunStopsOnEscape | src/DroneTelemetry/DroneTelemetryFunctionApp/RawTelemetryFunction.cs:34-66 | once an exception has escaped, later messages change nothing |
| RawTelemetry.BatchIsolation | src/DroneTelemetry/DroneTelemetryFunctionApp/RawTelemetryFunction.cs:34-66 | while sends succeed: nothing escapes, each failed message adds exactly one dead letter in order, a successful one none, and `deviceState` is the last decoded state |
| RawTelemetry.BatchStore | src/DroneTelemetry/DroneTelemetryFunctionApp/RawTelemetryFunction.cs:38-43 | while sends succeed, each document is the whole state last stored under its id, and other documents are unchanged |
| RawTelemetry.SecondDeadLetterOnSendFailure | src/DroneTelemetry/DroneTelemetryFunctionApp/RawTelemetryFunction.cs:44-65 | an upsert failure whose dead-letter send also fails gives a second dead letter carrying the send's exception |
| RawTelemetry.EscapeSkipsRest | src/DroneTelemetry/DroneTelemetryFunctionApp/RawTelemetryFunction.cs:56-65 | a failing send in the outer catch ends the batch with the rest unprocessed |
| Generator.VaryCondition | src/DroneSimulator/Serverless.Simulator/TelemetryGenerator.cs:71-77 | the result never exceeds max; it is at least min when min <= max (max when min > max); an in-range draw is returned unchanged |
| Generator.VaryLocation | src/DroneSimulator/Serverless.Simulator/TelemetryGenerator.cs:79-88 | the altitude lies within 5 of 499.99; a zero distance keeps latitude and longitude |
| Generator.GetFirstFrame | src/DroneSimulator/Serverless.Simulator/TelemetryGenerator.cs:90-101 | a complete key frame: battery 1.0, Offline, the default position, all healthy |
| Generator.DeltaFrame | src/DroneSimulator/Serverless.Simulator/TelemetryGenerator.cs:61-66 | a non-key record carrying only the id |
| Generator.KeyFrame | src/DroneSimulator/Serverless.Simulator/TelemetryGenerator.cs:40-58 | throws iff the previous battery or position is null; otherwise complete with the counter as flight mode, battery in [0.1, previous] (or previous when below 0.1), altitude in [494.99, 504.99], health by the three draw thresholds |
| Generator.KeyFrameDistanceBounded | src/DroneSimulator/Serverless.Simulator/TelemetryGenerator.cs:43 | the key-frame distance lies in [-1.5, 1.5] |
| Generator.NextCycle | src/DroneSimulator/Serverless.Simulator/TelemetryGenerator.cs:57 | the counter increments or resets to 0, staying in 0..6 |
| Generator.CycleAfterFromStart | src/DroneSimulator/Serverless.Simulator/TelemetryGenerator.cs:57 | starting from 1, after n key frames the counter reads (n + 1) mod 7 |
| Generator.UndefinedModeOncePerCycle | src/DroneSimulator/Serverless.Simulator/TelemetryGenerator.cs:51-57 | the n-th key frame names no member exactly when n mod 7 = 5, and its mode is then 6 |
| Generator.TelemetryGenerator.constructor | src/DroneSimulator/Serverless.Simulator/TelemetryGenerator.cs:17 | the counter starts at 1 |
| Generator.TelemetryGenerator.GetTimeElapsedTelemetry | src/DroneSimulator/Serverless.Simulator/TelemetryGenerator.cs:31-69 | no previous state gives the first frame; a key frame is `KeyFrame` and advances the counter when it succeeds; otherwise a delta; the counter is unchanged except after a key frame |
| Producer.CheckArguments | src/DroneSimulator/Serverless.Simulator/Program.cs:24-48 | starts iff no argument is null; factory, pool and console are checked in that order before the delay; the device id is checked after it; the delay runs iff waittime > 0 |
| Producer.Requests | src/DroneSimulator/Serverless.Simulator/Program.cs:99-129 | the first n requests, one per record |
| Producer.ProduceLoop | src/DroneSimulator/Serverless.Simulator/Program.cs:89-136 | a zero gap throws after the first, key-frame request; otherwise the loop stops at the first cancelled check, having made exactly the requests `Requests` specifies |
| Producer.RequestAt | src/DroneSimulator/Serverless.Simulator/Program.cs:99-129 | request i asks for a key frame iff i = 0 or i is a multiple of the gap or of that step's draw, and passes the latest earlier key frame; the first passes null |
| Producer.LatestKeyFrame | src/DroneSimulator/Serverless.Simulator/Program.cs:104-111 | the remembered record is the latest earlier one requested as a key frame |
| Producer.KeyFrameAgeBounded | src/DroneSimulator/Serverless.Simulator/Program.cs:113-119 | with a positive gap, the remembered key frame is at most `gap` records old |
| Pooling.PoolObject.constructor | src/DroneSimulator/Serverless.Simulator/ObjectPool.cs:48-52 | the handle keeps its object and its pool |
| Pooling.PoolObject.Value | src/DroneSimulator/Serverless.Simulator/ObjectPool.cs:59-62 | the handle's object |
| Pooling.PoolObject.Dispose | src/DroneSimulator/Serverless.Simulator/ObjectPool.cs:54-57 | the handle goes back to the end of its pool; the count of held handles is kept for a checked-out handle and grows by one for a second dispose |
| Pooling.AsValue | src/DroneSimulator/Serverless.Simulator/ObjectPool.cs:64-67 | the conversion yields the handle's value |
| Pooling.ObjectPool.Empty | src/DroneSimulator/Serverless.Simulator/ObjectPool.cs:9-16 | a pool with its size and no handles |
| Pooling.ObjectPool.Initialize | src/DroneSimulator/Serverless.Simulator/ObjectPool.cs:20-26 | succeeds iff the factory yields an object on each of the first poolSize calls; then max(poolSize, 0) distinct fresh handles holding those objects in order |
| Pooling.ObjectPool.Create | src/DroneSimulator/Serverless.Simulator/ObjectPool.cs:13-18 | a null factory throws; otherwise a fresh pool holding max(poolSize, 0) handles, or the factory's failure |
| Pooling.ObjectPool.GetObject | src/DroneSimulator/Serverless.Simulator/ObjectPool.cs:28-31 | takes the oldest available handle and checks it out |
| Pooling.ObjectPool.Return | src/DroneSimulator/Serverless.Simulator/ObjectPool.cs:33-41 | a null handle throws and changes nothing; any other is appended, with no duplicate check |
| Pooling.DoubleDisposeOverfills | src/DroneSimulator/Serverless.Simulator/ObjectPool.cs:54-57 | disposing one handle twice leaves a pool of size 1 offering two handles |
| RoleAuthorization.PrincipalRoles | src/DroneStatus/dotnet/DroneStatusFunctionApp/ClaimsPrincipalAuthorizationExtensions.cs:13 | exactly the values of claims whose type is "roles" |
| RoleAuthorization.MissingRoles | src/DroneStatus/dotnet/DroneStatusFunctionApp/ClaimsPrincipalAuthorizationExtensions.cs:14 | exactly the required roles the principal lacks, never more than were required |
| RoleAuthorization.IsAuthorizedByRoles | src/DroneStatus/dotnet/DroneStatusFunctionApp/ClaimsPrincipalAuthorizationExtensions.cs:8-22 | true iff every required role is the value of some "roles" claim; an empty requirement always passes |
| RoleAuthorization.AuthorizationIgnoresOrder | src/DroneStatus/dotnet/DroneStatusFunctionApp/ClaimsPrincipalAuthorizationExtensions.cs:13 | reordering or duplicating claims does not change the decision |
| RoleAuthorization.AuthorizationMonotonic | src/DroneStatus/dotnet/DroneStatusFunctionApp/ClaimsPrincipalAuthorizationExtensions.cs:13-14 | more claims never revoke, more required roles never grant |
| RoleAuthorization.OtherClaimTypesIgnored | src/DroneStatus/dotnet/DroneStatusFunctionApp/ClaimsPrincipalAuthorizationExtensions.cs:13 | a claim of another type never changes the decision |
| HttpAuthorization.GetResultIfUnauthorized | src/DroneStatus/dotnet/DroneStatusFunctionApp/HttpRequestAuthorizationExtensions.cs:46-82 | null iff exactly one header value decodes to a claims array the predicate accepts; otherwise Unauthorized; a missing header or a value count other than one is refused before decoding; only the JSON parser's exception escapes, a base64 format error is refused |
| HttpAuthorization.HandleIfAuthorizedByClaims | src/DroneStatus/dotnet/DroneStatusFunctionApp/HttpRequestAuthorizationExtensions.cs:37-44 | the handler's outcome is returned unchanged when the request passes; otherwise Unauthorized or the escaping parse exception |
| HttpAuthorization.RefusalIgnoresHandler | src/DroneStatus/dotnet/DroneStatusFunctionApp/HttpRequestAuthorizationExtensions.cs:43 | a refused request's result does not depend on the handler |
| HttpAuthorization.RolesPredicate | src/DroneStatus/dotnet/DroneStatusFunctionApp/HttpRequestAuthorizationExtensions.cs:21-32 | the lambda is the role check on the decoded claims |
| HttpAuthorization.HandleIfAuthorizedForRoles | src/DroneStatus/dotnet/DroneStatusFunctionApp/HttpRequestAuthorizationExtensions.cs:17-35 | with a well-formed header, the handler's outcome iff every required role is held, else Unauthorized; a missing, multi-valued, non-base64 or claims-less header gives Unauthorized |
| HttpAuthorization.OnlyAuthorizedReachHandler | src/DroneStatus/dotnet/DroneStatusFunctionApp/HttpRequestAuthorizationExtensions.cs:17-44 | any non-Unauthorized, non-exception result is the handler's, from a well-formed header holding every required role |
| GetStatus.Run | src/DroneStatus/dotnet/DroneStatusFunctionApp/GetStatusFunction.cs:20-50 | Unauthorized iff there is no principal or it lacks a "roles" claim "GetStatus"; then BadRequest "Missing DeviceId" iff no deviceId; then NotFound iff no stored status; else Ok with the stored status unchanged |
| GetStatus.AuthorizationDecidedFirst | src/DroneStatus/dotnet/DroneStatusFunctionApp/GetStatusFunction.cs:30-45 | a refused principal is refused whatever the query and the stored status |
| GetStatus.BadRequestForMissingDeviceId | src/DroneStatus/dotnet/DroneStatusFunction.Tests/GetStatusFunctionFixture.cs:30-43 | an authorized request without deviceId gets BadRequest |
| GetStatus.UnauthorizedForPrincipalWithoutRoles | src/DroneStatus/dotnet/DroneStatusFunction.Tests/GetStatusFunctionFixture.cs:45-62 | a principal without claims gets Unauthorized |
| GetStatus.UnauthorizedForNonRequiredRoles | src/DroneStatus/dotnet/DroneStatusFunction.Tests/GetStatusFunctionFixture.cs:64-81 | a claim of another type gets Unauthorized, even with value "GetStatus" |
| GetStatus.NotFoundForMissingDocument | src/DroneStatus/dotnet/DroneStatusFunction.Tests/GetStatusFunctionFixture.cs:83-101 | an authorized request for an unknown device gets NotFound |
| NodeAuthorization.LowerAscii | src/DroneStatus/nodejs/src/functions/authorization.ts:23 | same length; each upper-case ASCII letter is lowered, every other character kept |
| NodeAuthorization.HeaderKeyIsLowerCase | src/DroneStatus/nodejs/src/functions/authorization.ts:23 | the header is looked up under "x-ms-client-principal" |
| NodeAuthorization.GetResultIfUnauthorized | src/DroneStatus/nodejs/src/functions/authorization.ts:22-48 | a missing or empty header, or a decoding that throws, gives 401 'Unauthorized'; otherwise null iff the predicate returns true, 401 iff false, and the predicate's exception escapes |
| NodeAuthorization.HandleIfAuthorizedByClaims | src/DroneStatus/nodejs/src/functions/authorization.ts:18-20 | the handler's outcome iff the result above is null; otherwise the 401 response or the exception |
| NodeAuthorization.RolesPredicate | src/DroneStatus/nodejs/src/functions/authorization.ts:6-14 | on an array of claims, the role check; on any other value, `filter` throws a TypeError (message text not modelled) |
| NodeAuthorization.HandleIfAuthorizedForRoles | src/DroneStatus/nodejs/src/functions/authorization.ts:5-16 | no header or a failed decoding gives 401; a claims array reaches the handler iff every required role is held, else 401 |
| NodeAuthorization.MissingClaimsEscapes | src/DroneStatus/nodejs/src/functions/authorization.ts:32-44 | a token without 'claims' makes the predicate throw outside the try, so the exception escapes instead of a 401 |
| NodeAuthorization.CheckedRolesPredicate | src/DroneStatus/nodejs/src/functions/authorization.ts:6-14 | the role check on an array; false on any other value |
| NodeAuthorization.CheckedHandleIfAuthorizedForRoles | src/DroneStatus/nodejs/src/functions/authorization.ts:5-16 | never throws: the handler's outcome iff the header decodes to claims holding every required role, 401 otherwise |
| NodeAuthorization.PrincipalClaims | src/DroneStatus/nodejs/src/functions/authorization.ts:50-53 | one {typ 'roles', val r} claim per role, in order |
| NodeAuthorization.PrincipalWithRolesAuthorizes | src/DroneStatus/nodejs/src/functions/authorization.ts:50-53 | a principal built from roles R passes the role check for any required list drawn from R |
| NodeAuthorization.CreatedPrincipalDecoding | src/DroneStatus/nodejs/src/functions/authorization.ts:34-53 | the token `createPrincipalWithRoles` builds is read back by `toString('ascii')` as its own JSON text iff that text is ASCII, and then decodes to the built claims; a UTF-8 reading gives them back always |
| NodeAuthorization.CreatedPrincipalReachesHandler | src/DroneStatus/nodejs/src/functions/authorization.ts:22-53 | a request carrying the built token under the lower-cased key reaches the handler for any required list drawn from R, when the serialized token is ASCII |
| NodeAuthorization.Utf8PrincipalReachesHandler | src/DroneStatus/nodejs/src/functions/authorization.ts:22-53 | with the header read as UTF-8, the built token reaches the handler for any required list drawn from R, whatever its characters |
| NodeBuffer.AsciiText | src/DroneStatus/nodejs/src/functions/authorization.ts:34 | `toString('ascii')` gives one character per byte, the byte with its high bit cleared, so always ASCII |
| NodeBuffer.Utf8Encode | src/DroneStatus/nodejs/src/functions/authorization.ts:52 | `Buffer.from` writes at least one byte per character, exactly one for all characters iff the text is ASCII, and then the characters' own codes |
| NodeBuffer.AsciiReadsBackUtf8 | src/DroneStatus/nodejs/src/functions/authorization.ts:34-52 | reading the UTF-8 bytes of a text as 'ascii' gives the text back iff it is ASCII |
| NodeBuffer.NonAsciiIsGarbled | src/DroneStatus/nodejs/src/functions/authorization.ts:34-52 | "é" is written as C3 A9 and read back as "C)" |
| NodeBuffer.Utf8RoundTrip | src/DroneStatus/nodejs/src/functions/authorization.ts:52 | UTF-8 decoding gives back every text `Buffer.from` wrote |

## Left out

- Math.Round, Math.Cos and the constant pi are not modelled. Reals stand for doubles, with no rounding to 2 or 6 decimals. The secant of the latitude and 180/pi are parameters (`Generator.Trig`).
- Random numbers are parameters: `Generator.RandomDraws`, and the `draws` of `Producer.ProduceLoop`.
- The protobuf serializer and the serializer interfaces are not modelled. Decoding is a partial function given as a parameter; only the field numbers are modelled (`DroneStates.ProtoTag`).
- The dataflow pipeline (buffer block, action block, parallel sends), the async console, cancellation tokens, the Event Hub client and `Main` are not modelled. They are concurrency and I/O. The consumer's use of the pool is covered by `Pooling.ObjectPool.GetObject` and `Pooling.PoolObject.Dispose`.
- Logging and the batch-size metric are not modelled; they change no state the model observes.
- Cosmos DB, the queue service and queue creation are not modelled. They are the document map and the dead-letter sequence. Their failures are parameters: `upsertFault` and `sendFault` in `RawTelemetry`, the read `fault` and the `upsertFault` of `StateChange.StateChangeProcessor.UpdateState`. JSON serialization of dead letters is not modelled.
- The base64 encoding and decoding, `JSON.stringify` and `JSON.parse` of the Node.js module are parameters. `NodeAuthorization.CreatedPrincipalReachesHandler` takes as premises that base64 decoding undoes base64 encoding and that parsing undoes serializing the built claims.
- NodeAuthorization.CreatedPrincipalReachesHandler: holds only when the serialized token is ASCII, because the token is written as UTF-8 but read back as 'ascii' (see "## Findings").
- NodeBuffer.Utf8Text: on malformed input it gives one U+FFFD per rejected lead byte; Node's count of replacement characters is not modelled. It is used only on well-formed input.
- A null `DeviceId` (used as a partition key) is not modelled; device ids are always strings.
- ClaimsPrincipalParser and the .NET header lookup are not modelled. `GetStatus.Run` takes the parser's result, and `HttpAuthorization.GetResultIfUnauthorized` takes the header's values. Case-insensitive header matching belongs to ASP.NET. The parser's own exceptions are not modelled.
- The C# claims projection is lazy. A claim without `typ` or `val` would throw later, inside the predicate; that is not modelled. In the Node.js module, a claims array whose elements are not objects is not modelled either.
- The Node.js status function and the Cosmos reads around the authorization module are not modelled. They are HTTP plumbing.
- Producer.ProduceLoop: the source loop runs until cancellation or an exception, possibly forever. The model covers runs that end, given as a finite sequence of cancellation checks that contains a cancelled one. C#'s truncating `%` and Dafny's Euclidean `%` agree on whether a positive count is a multiple, which is all the loop tests.
- Pooling.ObjectPool.GetObject: `Take` blocks while the pool is empty. The model requires a non-empty pool, i.e. a call that returns.
- StateChange.DocumentClient.UpsertDocument: what the real client does with a null document lies outside the source. The model rejects it and leaves the store unchanged.

## Findings

| source | as written | input that shows it | evidently intended | confidence | as-written member | corrected member |
|---|---|---|---|---|---|---|
| src/DroneStatus/nodejs/src/functions/authorization.ts:32-44 | the try/catch covers only decoding; the role predicate calls `claims.filter` outside it | a header whose base64 JSON is `{}` (no 'claims' key) | refuse with 401 like any other token without the expected information, as the C# helper does for a missing claims array | medium, not executed | NodeAuthorization.MissingClaimsEscapes | NodeAuthorization.CheckedHandleIfAuthorizedForRoles |
| src/DroneStatus/nodejs/src/functions/authorization.ts:34-52 | the header bytes are read with `toString('ascii')`, which clears each byte's high bit, while tokens (here `createPrincipalWithRoles`) are written as UTF-8 | `createPrincipalWithRoles(['é'])`: the role's bytes C3 A9 are read back as "C)", so `handleIfAuthorizedForRoles` with `['é']` cannot find the role | read the bytes as UTF-8 (`toString('utf8')`), which gives back every token | low, not executed | NodeBuffer.NonAsciiIsGarbled | NodeAuthorization.Utf8PrincipalReachesHandler |
