/** `StateChangeProcessor.UpdateState`: read the stored document of a device,
    merge the incoming partial state into it field by field (or take the
    incoming state as-is when there is none), and upsert the result. */
module StateChange {
  import opened Wrappers
  import opened TelemetryProcessing

  /** The null-coalescing `??`: an incoming value wins, otherwise the stored one stays. */
  function Coalesce<T>(incoming: Option<T>, stored: Option<T>): (r: Option<T>)
    ensures r.Some? <==> incoming.Some? || stored.Some?
    ensures incoming.Some? ==> r == incoming
    ensures r == incoming || r == stored
  {
    if incoming.Some? then incoming else stored
  }

  /** Every field set in `older` is also set in `newer`. */
  predicate Covers(newer: DeviceState, older: DeviceState) {
    && (older.battery.Some? ==> newer.battery.Some?)
    && (older.flightMode.Some? ==> newer.flightMode.Some?)
    && (older.latitude.Some? ==> newer.latitude.Some?)
    && (older.longitude.Some? ==> newer.longitude.Some?)
    && (older.altitude.Some? ==> newer.altitude.Some?)
    && (older.accelerometerOK.Some? ==> newer.accelerometerOK.Some?)
    && (older.gyrometerOK.Some? ==> newer.gyrometerOK.Some?)
    && (older.magnetometerOK.Some? ==> newer.magnetometerOK.Some?)
  }

  /** The eight-field merge of lines 38-45: the stored document keeps its id;
      each measured field takes the incoming value when it is non-null. */
  function Merge(source: DeviceState, target: DeviceState): (m: DeviceState)
    ensures m.deviceId == target.deviceId
    ensures Covers(m, target) && Covers(m, source)
    ensures source.IsEmpty() ==> m == target
    ensures target.IsEmpty() ==> m == source.(deviceId := target.deviceId)
  {
    target.(
      battery := Coalesce(source.battery, target.battery),
      flightMode := Coalesce(source.flightMode, target.flightMode),
      latitude := Coalesce(source.latitude, target.latitude),
      longitude := Coalesce(source.longitude, target.longitude),
      altitude := Coalesce(source.altitude, target.altitude),
      accelerometerOK := Coalesce(source.accelerometerOK, target.accelerometerOK),
      gyrometerOK := Coalesce(source.gyrometerOK, target.gyrometerOK),
      magnetometerOK := Coalesce(source.magnetometerOK, target.magnetometerOK))
  }

  /** Merging the same incoming record a second time changes nothing. */
  lemma MergeIdempotent(source: DeviceState, target: DeviceState)
    ensures Merge(source, Merge(source, target)) == Merge(source, target)
  {
  }

  /** Merging `b` after `a` is merging one record in which `b`'s values win. */
  lemma MergeComposes(a: DeviceState, b: DeviceState, target: DeviceState)
    ensures Merge(b, Merge(a, target)) == Merge(Merge(b, a), target)
  {
  }

  /** The outcome of the read: the stored document, the status code of the
      `DocumentClientException` the client threw, or any other exception. */
  datatype ReadResult = Found(doc: DeviceState) | Failed(status: int) | Threw(exception: string)

  /** A fault the back end may inject on a read: a `DocumentClientException`
      with its status, any other exception (from the read itself or from the
      cast of its resource to a document), or none. */
  datatype ReadFault = NoFault | Fault(status: int) | Throws(exception: string)

  const NotFound: int := 404

  /** Exceptions that leave `UpdateState`: the upsert of a null document, or
      an exception thrown by the read (other than a `DocumentClientException`)
      or by the upsert. */
  datatype UpdateError = NullDocument | Escaped(exception: string)

  /** The document store behind `IDocumentClient`: documents keyed by id, and
      the log of upsert calls issued against it. */
  class DocumentClient {
    var documents: map<string, DeviceState>
    ghost var upsertCalls: seq<Option<DeviceState>>

    /** Each document is stored under its own id. */
    ghost predicate Valid()
      reads this
    {
      forall k :: k in documents ==> documents[k].deviceId == k
    }

    constructor (initial: map<string, DeviceState>)
      requires forall k :: k in initial ==> initial[k].deviceId == k
      ensures Valid() && documents == initial && upsertCalls == []
    {
      documents := initial;
      upsertCalls := [];
    }

    /** `ReadDocumentAsync`: an injected fault wins; otherwise a missing
        document is reported with status NotFound. */
    method ReadDocument(id: string, fault: ReadFault) returns (r: ReadResult)
      requires Valid()
      ensures fault.Fault? ==> r == Failed(fault.status)
      ensures fault.Throws? ==> r == Threw(fault.exception)
      ensures fault.NoFault? && id in documents ==> r == Found(documents[id]) && r.doc.deviceId == id
      ensures fault.NoFault? && id !in documents ==> r == Failed(NotFound)
    {
      if fault.Fault? {
        r := Failed(fault.status);
      } else if fault.Throws? {
        r := Threw(fault.exception);
      } else if id in documents {
        r := Found(documents[id]);
      } else {
        r := Failed(NotFound);
      }
    }

    /** `UpsertDocumentAsync`: replaces (or creates) the document under its id;
        a null document is rejected, and `fault` is the exception the back end
        may throw instead; in both cases the store is left as it was. */
    method UpsertDocument(doc: Option<DeviceState>, fault: Option<string>) returns (r: Result<DeviceState, UpdateError>)
      requires Valid()
      modifies this
      ensures Valid()
      ensures upsertCalls == old(upsertCalls) + [doc]
      ensures doc.None? ==> r == Err(NullDocument) && documents == old(documents)
      ensures doc.Some? && fault.Some? ==> r == Err(Escaped(fault.value)) && documents == old(documents)
      ensures doc.Some? && fault.None? ==> r == Ok(doc.value) && documents == old(documents)[doc.value.deviceId := doc.value]
    {
      upsertCalls := upsertCalls + [doc];
      if doc.None? {
        r := Err(NullDocument);
      } else if fault.Some? {
        r := Err(Escaped(fault.value));
      } else {
        documents := documents[doc.value.deviceId := doc.value];
        r := Ok(doc.value);
      }
    }
  }

  /** Whether `UpdateState` gets as far as the upsert: every read outcome but
      an exception other than a `DocumentClientException`, which nothing
      catches. */
  predicate ReachesUpsert(fault: ReadFault) {
    !fault.Throws?
  }

  /** The document `UpdateState` hands to the upsert: the merge when the read
      succeeds, the incoming record when it reports NotFound, and null when a
      `DocumentClientException` reports any other status (that exception is
      swallowed). */
  function UpsertTarget(documents: map<string, DeviceState>, source: DeviceState, fault: ReadFault): (t: Option<DeviceState>)
    requires ReachesUpsert(fault)
    ensures t.None? <==> fault.Fault? && fault.status != NotFound
    ensures fault.NoFault? && source.deviceId !in documents ==> t == Some(source)
    ensures t.Some? ==> t.value.deviceId == source.deviceId || (fault.NoFault? && source.deviceId in documents)
    ensures t.Some? ==> Covers(t.value, source)
  {
    if fault.Fault? then
      if fault.status == NotFound then Some(source) else None
    else if source.deviceId in documents then Some(Merge(source, documents[source.deviceId]))
    else Some(source)
  }

  /** The store after one `UpdateState` call whose upsert, if it gets that
      far, meets `upsertFault`. */
  function StoreAfter(documents: map<string, DeviceState>, source: DeviceState, fault: ReadFault,
                      upsertFault: Option<string>): map<string, DeviceState> {
    if !ReachesUpsert(fault) || upsertFault.Some? then documents
    else match UpsertTarget(documents, source, fault)
      case None => documents
      case Some(t) => documents[t.deviceId := t]
  }

  /** Only the entry of the incoming device can change, and nothing changes
      when an exception escapes; when the read succeeds or reports NotFound
      and the upsert goes through, that entry ends up set and covering both
      the incoming record and whatever was stored before. */
  lemma StoreAfterChangesOneEntry(documents: map<string, DeviceState>, source: DeviceState, fault: ReadFault,
                                  upsertFault: Option<string>)
    requires forall k :: k in documents ==> documents[k].deviceId == k
    ensures var after := StoreAfter(documents, source, fault, upsertFault);
      && after.Keys <= documents.Keys + {source.deviceId}
      && (forall k :: k in documents && k != source.deviceId ==> k in after && after[k] == documents[k])
      && (forall k :: k in after ==> after[k].deviceId == k)
      && (fault.Throws? || upsertFault.Some? ==> after == documents)
      && ((fault.NoFault? || fault == Fault(NotFound)) && upsertFault.None? ==>
            source.deviceId in after && Covers(after[source.deviceId], source))
      && (fault.NoFault? && upsertFault.None? && source.deviceId in documents ==>
            Covers(after[source.deviceId], documents[source.deviceId]))
  {
  }

  /** Applying the same incoming record twice leaves the store as applying it once. */
  lemma UpdateIdempotent(documents: map<string, DeviceState>, source: DeviceState)
    requires forall k :: k in documents ==> documents[k].deviceId == k
    ensures StoreAfter(StoreAfter(documents, source, NoFault, None), source, NoFault, None)
         == StoreAfter(documents, source, NoFault, None)
  {
    var once := StoreAfter(documents, source, NoFault, None);
    assert source.deviceId in once;
    if source.deviceId in documents {
      MergeIdempotent(source, documents[source.deviceId]);
    } else {
      MergeIdempotent(source, EmptyState(source.deviceId));
      assert Merge(source, source) == source;
    }
  }

  /** An incoming record with no measured field writes the stored document back unchanged. */
  lemma EmptyUpdateKeepsStore(documents: map<string, DeviceState>, source: DeviceState)
    requires forall k :: k in documents ==> documents[k].deviceId == k
    requires source.IsEmpty() && source.deviceId in documents
    ensures StoreAfter(documents, source, NoFault, None) == documents
  {
  }

  /** The processor, holding its document client. */
  class StateChangeProcessor {
    const client: DocumentClient

    constructor (client: DocumentClient)
      ensures this.client == client
    {
      this.client := client;
    }

    /** `UpdateState`: read, merge field by field or create, and issue exactly
        one upsert, whose response is returned; an exception from the read
        other than a `DocumentClientException` leaves before any upsert.
        `upsertFault` is the exception the upsert may throw. */
    method UpdateState(source: DeviceState, fault: ReadFault, upsertFault: Option<string>)
      returns (response: Result<DeviceState, UpdateError>)
      requires client.Valid()
      modifies client
      ensures client.Valid()
      ensures client.documents == StoreAfter(old(client.documents), source, fault, upsertFault)
      ensures !ReachesUpsert(fault) ==>
        client.upsertCalls == old(client.upsertCalls) && response == Err(Escaped(fault.exception))
      ensures ReachesUpsert(fault) ==>
        var target := UpsertTarget(old(client.documents), source, fault);
        && client.upsertCalls == old(client.upsertCalls) + [target]
        && (target.None? ==> response == Err(NullDocument))
        && (target.Some? && upsertFault.Some? ==> response == Err(Escaped(upsertFault.value)))
        && (target.Some? && upsertFault.None? ==> response == Ok(target.value))
    {
      var target: Option<DeviceState> := None;
      var read := client.ReadDocument(source.deviceId, fault);
      match read {
        case Found(doc) =>
          var t := doc;
          t := t.(battery := Coalesce(source.battery, t.battery));
          t := t.(flightMode := Coalesce(source.flightMode, t.flightMode));
          t := t.(latitude := Coalesce(source.latitude, t.latitude));
          t := t.(longitude := Coalesce(source.longitude, t.longitude));
          t := t.(altitude := Coalesce(source.altitude, t.altitude));
          t := t.(accelerometerOK := Coalesce(source.accelerometerOK, t.accelerometerOK));
          t := t.(gyrometerOK := Coalesce(source.gyrometerOK, t.gyrometerOK));
          t := t.(magnetometerOK := Coalesce(source.magnetometerOK, t.magnetometerOK));
          target := Some(t);
        case Failed(status) =>
          if status == NotFound {
            target := Some(source);
          }
        case Threw(e) =>
          return Err(Escaped(e));
      }
      response := client.UpsertDocument(target, upsertFault);
    }
  }

  /** Stored {Battery 0.5} merged with {Latitude 10, Longitude 20, Altitude 30}
      gives their union. */
  lemma MergeDocumentUnion()
    ensures
      var stored := EmptyState("device001").(battery := Some(0.5));
      var update := EmptyState("device001").(latitude := Some(10.0), longitude := Some(20.0), altitude := Some(30.0));
      Merge(update, stored) == EmptyState("device001").(battery := Some(0.5), latitude := Some(10.0),
                                                        longitude := Some(20.0), altitude := Some(30.0))
  {
  }

  /** With no stored document, {device001, Battery 1} is written as-is. */
  lemma CreateDocumentOnMissing(documents: map<string, DeviceState>)
    requires "device001" !in documents
    ensures
      var update := EmptyState("device001").(battery := Some(1.0));
      StoreAfter(documents, update, NoFault, None) == documents["device001" := update]
  {
  }
}
