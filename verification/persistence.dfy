/** The persistence service: shallow schema validation, `save` with a
    `_metadata` envelope, `load` that strips it, `remove`, `backup`,
    `restore`, the local-key filtering of `migrateToSupabase`, and the
    per-key debounced save. Only the browser-storage backend is modelled;
    the remote backend's client object is never created by the source, so
    every call that reaches it fails the way the source fails. */
module PersistenceService {
  import opened Wrappers
  import opened Json
  import Debounce

  const LocalStorageType := "localStorage"
  const RemoteStorageType := "supabase"
  const MetadataField := "_metadata"
  const MetadataVersion := "1.0"
  const DefaultDebounceTime := 1000

  /** Constructor options. An absent `storageType` is "" and an absent
      `debounceTime` is 0 (both falsy); `hasRemoteSettings` says whether a
      `supabase` settings object was supplied. */
  datatype Config = Config(storageType: string, debounceTime: int, hasRemoteSettings: bool)

  const LocalConfig := Config(LocalStorageType, 1000, false)
  const RemoteConfig := Config(RemoteStorageType, 2000, true)

  datatype Service = Service(storageType: string, debounceTime: int)

  predicate IsRemote(s: Service) {
    s.storageType == RemoteStorageType
  }

  /** `new PersistenceService(config)`: remote mode with settings is
      downgraded to local storage at once, because the remote client package
      is not available. */
  function Construct(config: Config): (s: Service)
    ensures IsRemote(s) <==> config.storageType == RemoteStorageType && !config.hasRemoteSettings
    ensures s.storageType != ""
    ensures config.storageType != "" && config.storageType != RemoteStorageType ==> s.storageType == config.storageType
    ensures s.debounceTime != 0
    ensures config.debounceTime != 0 ==> s.debounceTime == config.debounceTime
  {
    var requested := if config.storageType == "" then LocalStorageType else config.storageType;
    var active := if requested == RemoteStorageType && config.hasRemoteSettings then LocalStorageType else requested;
    Service(active, if config.debounceTime == 0 then DefaultDebounceTime else config.debounceTime)
  }

  /** Both configurations the source ships end up on local storage. */
  lemma {:induction false} ShippedConfigsAreLocal()
    ensures !IsRemote(Construct(LocalConfig)) && !IsRemote(Construct(RemoteConfig))
    ensures Construct(LocalConfig).debounceTime == 1000
    ensures Construct(RemoteConfig).debounceTime == 2000
  {
  }

  // ---- schema validation ----

  /** A required field and the `typeof` kind its value must have. */
  datatype Field = Field(name: string, kind: string)

  /** A schema lists its fields in `Object.entries` order. */
  type Schema = seq<Field>

  const RoadmapSchema: Schema := [Field("lastUpdated", "string"), Field("quarters", "object")]
  const ContentSchema: Schema := [
    Field("technicalWhitepaper", "object"), Field("architectureOverview", "object"),
    Field("xandeumIntegration", "object"), Field("financialFeatures", "object")
  ]

  predicate HasKind(data: Json, f: Field) {
    match Prop(data, f.name)
    case Some(v) => TypeOf(v) == f.kind
    case None => false
  }

  /** The loop over the schema's entries: stops at the first field that is
      missing or of another kind. */
  function FieldsMatch(data: Json, schema: Schema): (ok: bool)
    ensures ok <==> forall i :: 0 <= i < |schema| ==> HasKind(data, schema[i])
  {
    if |schema| == 0 then true
    else HasKind(data, schema[0]) && FieldsMatch(data, schema[1..])
  }

  /** `validateData`: false for every falsy or non-object value whatever the
      schema; otherwise true exactly when each schema field is present with
      its declared kind. Undeclared fields are not looked at. */
  function ValidateData(data: Json, schema: Option<Schema>): (ok: bool)
    ensures ok <==> (IsObjectLike(data)
                     && (schema.Some? ==> forall i :: 0 <= i < |schema.value| ==> HasKind(data, schema.value[i])))
  {
    ObjectLikeIffTruthyObject(data);
    if !Truthy(data) || TypeOf(data) != "object" then false
    else if schema.Some? then FieldsMatch(data, schema.value)
    else true
  }

  /** Extra fields never make a record fail: a record that passes still passes
      with more fields added. */
  lemma {:induction false} ExtraFieldsIgnored(fields: map<string, Json>, extra: map<string, Json>, schema: Option<Schema>)
    requires ValidateData(JObj(fields), schema)
    requires fields.Keys !! extra.Keys
    ensures ValidateData(JObj(fields + extra), schema)
  {
    if schema.Some? {
      forall i | 0 <= i < |schema.value|
        ensures HasKind(JObj(fields + extra), schema.value[i])
      {
        assert HasKind(JObj(fields), schema.value[i]);
      }
    }
  }

  // ---- results ----

  datatype Failure =
    | ValidationFailed
    | StorageFault(message: string)
    | ParseFailed(raw: string)
    | NotInitialized
    | RemoteClientMissing
    | AlreadyRemote

  /** The error text the source reports for each failure. */
  function Message(f: Failure): string {
    match f
    case ValidationFailed => "Data validation failed"
    case StorageFault(m) => m
    case ParseFailed(_) => "JSON.parse error"
    case NotInitialized => "Supabase not initialized"
    case RemoteClientMissing => "Cannot read properties of undefined (reading 'from')"
    case AlreadyRemote => "Already using Supabase"
  }

  /** `{success: true}` or `{success: false, error}`. */
  datatype WriteReply = Written | WriteFailed(failure: Failure)

  /** `{success: true, data}` or `{success: false, error, data: defaultValue}`. */
  datatype ReadReply = Read(data: Json) | ReadFailed(failure: Failure, fallback: Json)

  /** An async call either resolves to a reply or rejects. */
  datatype Call<T> = Returned(value: T) | Threw(failure: Failure)

  /** A reply together with the medium after the call. */
  datatype Step<R> = Step(result: Call<R>, store: Medium<Json>)

  // ---- the local backend ----

  /** `saveToLocalStorage`: `fault` is the exception the host raises, if any
      (a quota error, a value `JSON.stringify` cannot encode). */
  function SaveLocal(store: Medium<Json>, key: string, value: Json, fault: Option<string>): (r: Step<WriteReply>)
    ensures fault.None? ==> r == Step(Returned(Written), store[key := Stringify(value)])
    ensures fault.Some? ==> r == Step(Returned(WriteFailed(StorageFault(fault.value))), store)
  {
    match fault
    case None => Step(Returned(Written), store[key := Stringify(value)])
    case Some(m) => Step(Returned(WriteFailed(StorageFault(m))), store)
  }

  /** `loadFromLocalStorage`: an absent key yields the default; unparseable
      text yields a failure carrying the default. */
  function LoadLocal(store: Medium<Json>, key: string, default: Json): (r: ReadReply)
    ensures key !in store ==> r == Read(default)
    ensures key in store ==> (r.Read? <==> store[key].Encoded?)
    ensures r.Read? && key in store ==> Stringify(r.data) == store[key]
    ensures r.ReadFailed? ==> r.fallback == default
  {
    if key !in store then Read(default)
    else match Parse(store[key])
      case Some(v) => Read(v)
      case None => ReadFailed(ParseFailed(store[key].raw), default)
  }

  function RemoveLocal(store: Medium<Json>, key: string, fault: Option<string>): (r: Step<WriteReply>)
    ensures fault.None? ==> r == Step(Returned(Written), store - {key})
    ensures fault.Some? ==> r.store == store && r.result.Returned? && r.result.value.WriteFailed?
  {
    match fault
    case None => Step(Returned(Written), store - {key})
    case Some(m) => Step(Returned(WriteFailed(StorageFault(m))), store)
  }

  // ---- the envelope ----

  function Metadata(now: string): Json {
    JObj(map["lastUpdated" := JStr(now), "version" := JStr(MetadataVersion)])
  }

  /** `{...data, _metadata: {lastUpdated, version}}`. */
  function Envelope(data: Json, now: string): (e: Json)
    ensures e.JObj? && MetadataField in e.fields && e.fields[MetadataField] == Metadata(now)
    ensures forall k :: k in Spread(data) && k != MetadataField ==> k in e.fields && e.fields[k] == Spread(data)[k]
    ensures e.fields.Keys == Spread(data).Keys + {MetadataField}
  {
    JObj(Spread(data)[MetadataField := Metadata(now)])
  }

  predicate HasTruthyMetadata(v: Json) {
    v.JObj? && MetadataField in v.fields && Truthy(v.fields[MetadataField])
  }

  /** What `load` does to a successful result: a record whose `_metadata` is
      truthy loses that field; everything else passes through. */
  function Strip(v: Json): (r: Json)
    ensures !HasTruthyMetadata(r)
    ensures !HasTruthyMetadata(v) ==> r == v
    ensures HasTruthyMetadata(v) ==> r == JObj(v.fields - {MetadataField})
  {
    if HasTruthyMetadata(v) then JObj(v.fields - {MetadataField}) else v
  }

  // ---- the unified API ----

  datatype SaveOptions = SaveOptions(validate: bool, schema: Option<Schema>)

  const DefaultSaveOptions := SaveOptions(true, None)

  /** `save(key, data, options)` at clock value `now`. A rejected save
      reports the validation failure and never writes. */
  function Save(svc: Service, store: Medium<Json>, key: string, data: Json, opts: SaveOptions,
                now: string, fault: Option<string>): (r: Step<WriteReply>)
    ensures opts.validate && !ValidateData(data, opts.schema) ==> r == Step(Returned(WriteFailed(ValidationFailed)), store)
    ensures (r.result == Returned(Written))
        <==> ((!opts.validate || ValidateData(data, opts.schema)) && !IsRemote(svc) && fault.None?)
    ensures r.result == Returned(Written) ==> r.store == store[key := Encoded(Envelope(data, now))]
    ensures r.result != Returned(Written) ==> r.store == store
    ensures IsRemote(svc) && (!opts.validate || ValidateData(data, opts.schema)) ==> r.result == Threw(NotInitialized)
    ensures r.result.Threw? <==> IsRemote(svc) && (!opts.validate || ValidateData(data, opts.schema))
  {
    if opts.validate && !ValidateData(data, opts.schema) then
      Step(Returned(WriteFailed(ValidationFailed)), store)
    else
      var envelope := Envelope(data, now);
      if IsRemote(svc) then Step(Threw(NotInitialized), store)
      else SaveLocal(store, key, envelope, fault)
  }

  /** `load(key, defaultValue)`: the stored value or the default, with a
      truthy `_metadata` removed; unparseable text is a failure that carries
      the default untouched. */
  function Load(svc: Service, store: Medium<Json>, key: string, default: Json): (r: Call<ReadReply>)
    ensures IsRemote(svc) <==> r == Threw(NotInitialized)
    ensures !IsRemote(svc) && key !in store ==> r == Returned(Read(Strip(default)))
    ensures (!IsRemote(svc) && key in store && store[key].Malformed?)
        ==> r == Returned(ReadFailed(ParseFailed(store[key].raw), default))
    ensures (!IsRemote(svc) && key in store && store[key].Encoded?)
        ==> r == Returned(Read(Strip(store[key].value)))
  {
    if IsRemote(svc) then Threw(NotInitialized)
    else match LoadLocal(store, key, default)
      case Read(v) => Returned(Read(Strip(v)))
      case ReadFailed(f, d) => Returned(ReadFailed(f, d))
  }

  /** `remove(key)`. Absence is not an error. In remote mode the call reads a
      property of the missing client; the resulting error is caught and
      reported. */
  function Remove(svc: Service, store: Medium<Json>, key: string, fault: Option<string>): (r: Step<WriteReply>)
    ensures r.result.Returned?
    ensures r.result.value == Written <==> !IsRemote(svc) && fault.None?
    ensures r.result.value == Written ==> r.store == store - {key}
    ensures r.result.value != Written ==> r.store == store
  {
    if IsRemote(svc) then Step(Returned(WriteFailed(RemoteClientMissing)), store)
    else RemoveLocal(store, key, fault)
  }

  /** The round trip: right after a successful save of a record that has no
      `_metadata` field of its own, `load` returns that record unchanged. */
  lemma {:induction false} SaveThenLoad(svc: Service, store: Medium<Json>, key: string, fields: map<string, Json>,
                     opts: SaveOptions, now: string, default: Json)
    requires MetadataField !in fields
    requires Save(svc, store, key, JObj(fields), opts, now, None).result == Returned(Written)
    ensures Load(svc, Save(svc, store, key, JObj(fields), opts, now, None).store, key, default)
            == Returned(Read(JObj(fields)))
  {
    var e := Envelope(JObj(fields), now);
    assert HasTruthyMetadata(e);
    assert e.fields - {MetadataField} == fields;
  }

  /** Saving an array (which passes validation, being an object) stores an
      index-keyed record, so the round trip yields a record, not the array. */
  lemma {:induction false} SavedArrayLoadsAsRecord(svc: Service, store: Medium<Json>, key: string, items: seq<Json>,
                                                    now: string, default: Json)
    requires !IsRemote(svc)
    ensures var saved := Save(svc, store, key, JArr(items), DefaultSaveOptions, now, None);
      && saved.result == Returned(Written)
      && Load(svc, saved.store, key, default) == Returned(Read(JObj(IndexEntries(items))))
  {
    ArrayEnvelopeStrips(items, now);
    assert ValidateData(JArr(items), None);
    var saved := Save(svc, store, key, JArr(items), DefaultSaveOptions, now, None);
    assert saved.store == store[key := Encoded(Envelope(JArr(items), now))];
  }

  /** Index keys start with a digit, so none is `_metadata`. */
  lemma {:induction false} MetadataNotAnIndex(items: seq<Json>)
    ensures MetadataField !in IndexEntries(items)
  {
    if MetadataField in IndexEntries(items) {
      IndexKeysAreDigits(items, MetadataField);
    }
  }

  /** The envelope of an array, with its metadata removed again, is the
      array's index-keyed record: no index is named `_metadata`. */
  lemma {:induction false} ArrayEnvelopeStrips(items: seq<Json>, now: string)
    ensures Strip(Envelope(JArr(items), now)) == JObj(IndexEntries(items))
  {
    var m := IndexEntries(items);
    MetadataNotAnIndex(items);
    assert Envelope(JArr(items), now) == JObj(m[MetadataField := Metadata(now)]);
    StripUndoesStamp(m, now);
  }

  /** Removing the metadata just added to a record without one gives the
      record back. */
  lemma {:induction false} StripUndoesStamp(fields: map<string, Json>, now: string)
    requires MetadataField !in fields
    ensures Strip(JObj(fields[MetadataField := Metadata(now)])) == JObj(fields)
  {
    assert fields[MetadataField := Metadata(now)] - {MetadataField} == fields;
  }

  /** After a successful remove, `load` falls back to the default. */
  lemma {:induction false} RemoveThenLoad(svc: Service, store: Medium<Json>, key: string, default: Json)
    requires Remove(svc, store, key, None).result.value == Written
    ensures Load(svc, Remove(svc, store, key, None).store, key, default) == Returned(Read(Strip(default)))
  {
  }

  // ---- debounced save ----

  /** `debouncedSave(key, data, callback)`: the service's timer table holds
      at most one callback per key, due `debounceTime` after `now`. */
  function DebouncedSave<J>(svc: Service, timers: Debounce.Table<J>, key: string, callback: J, now: int)
    : (t': Debounce.Table<J>)
    ensures t'.Keys == timers.Keys + {key}
    ensures t'[key] == Debounce.Timer(now + svc.debounceTime, callback)
    ensures forall k :: k in timers && k != key ==> t'[k] == timers[k]
  {
    Debounce.Schedule(timers, key, callback, now, svc.debounceTime)
  }

  // ---- backup, restore, migration ----

  datatype Snapshot = Snapshot(timestamp: string, storageType: string, data: map<string, Json>)

  /** The keys whose `load` succeeds: absent or parseable. */
  predicate Readable(store: Medium<Json>, key: string) {
    key !in store || store[key].Encoded?
  }

  /** The data part of `backup(keys)`: each key whose load succeeds, with the
      loaded value (the default being `null`); failing keys are left out
      without notice. In remote mode the first load rejects the whole call. */
  function BackupData(svc: Service, store: Medium<Json>, keys: seq<string>): (r: Call<map<string, Json>>)
    ensures r.Returned? <==> !IsRemote(svc) || |keys| == 0
    ensures r.Returned? ==> r.value.Keys == set k | k in keys && Readable(store, k)
    ensures r.Returned? ==> forall k :: k in r.value ==> Load(svc, store, k, JNull) == Returned(Read(r.value[k]))
  {
    if |keys| == 0 then Returned(map[])
    else
      var key := keys[|keys| - 1];
      assert forall k :: k in keys <==> k in keys[..|keys| - 1] || k == key;
      match BackupData(svc, store, keys[..|keys| - 1])
      case Threw(f) => Threw(f)
      case Returned(data) =>
        match Load(svc, store, key, JNull)
        case Threw(f) => Threw(f)
        case Returned(Read(v)) => Returned(data[key := v])
        case Returned(ReadFailed(_, _)) => Returned(data)
  }

  function Backup(svc: Service, store: Medium<Json>, keys: seq<string>, now: string): (r: Call<Snapshot>)
    ensures r.Returned? ==> r.value.timestamp == now && r.value.storageType == svc.storageType
    ensures r.Returned? <==> BackupData(svc, store, keys).Returned?
  {
    match BackupData(svc, store, keys)
    case Threw(f) => Threw(f)
    case Returned(data) => Returned(Snapshot(now, svc.storageType, data))
  }

  /** `order` is `Object.entries(backup.data)`: every key exactly once. */
  ghost predicate EnumeratesKeys(order: seq<string>, data: map<string, Json>) {
    && (forall k :: k in data <==> k in order)
    && (forall i, j :: 0 <= i < j < |order| ==> order[i] != order[j])
  }

  /** The store once every valid entry of `data` is saved: object entries are
      written in their envelope, other keys keep their value. */
  ghost predicate RestoredStore(before: Medium<Json>, after: Medium<Json>, data: map<string, Json>, now: string) {
    && (forall k :: k in data && IsObjectLike(data[k]) ==> k in after && after[k] == Encoded(Envelope(data[k], now)))
    && (forall k :: !(k in data && IsObjectLike(data[k])) ==> (k in after <==> k in before))
    && (forall k :: !(k in data && IsObjectLike(data[k])) && k in before ==> after[k] == before[k])
  }

  /** `restore(backup)`: saves every entry with the default options, in
      `order`, collecting each save's reply. Non-object entries (such as the
      `null` a backup records for an absent key) fail validation and are not
      written. In remote mode the first entry that passes validation reaches
      the missing client and rejects the call. */
  function Restore(svc: Service, store: Medium<Json>, data: map<string, Json>, order: seq<string>, now: string)
    : (r: Step<map<string, WriteReply>>)
    requires EnumeratesKeys(order, data)
    ensures r.result.Threw? ==> r == Step(Threw(NotInitialized), store)
    ensures r.result.Returned? ==> r.result.value.Keys == data.Keys
    decreases |order|
  {
    if |order| == 0 then Step(Returned(map[]), store)
    else
      var key := order[|order| - 1];
      EnumeratesWithoutLast(order, data);
      var earlier := Restore(svc, store, data - {key}, order[..|order| - 1], now);
      match earlier.result
      case Threw(f) => Step(Threw(f), store)
      case Returned(results) =>
        var saved := Save(svc, earlier.store, key, data[key], DefaultSaveOptions, now, None);
        match saved.result
        case Threw(f) => Step(Threw(f), store)
        case Returned(reply) => Step(Returned(results[key := reply]), saved.store)
  }

  lemma {:induction false} EnumeratesWithoutLast(order: seq<string>, data: map<string, Json>)
    requires |order| > 0 && EnumeratesKeys(order, data)
    ensures order[|order| - 1] in data
    ensures EnumeratesKeys(order[..|order| - 1], data - {order[|order| - 1]})
  {
    var rest := order[..|order| - 1];
    forall k | k in rest ensures k in data - {order[|order| - 1]} {
      var i :| 0 <= i < |rest| && rest[i] == k;
      assert order[i] == k;
    }
  }

  /** What a restore does: it rejects exactly when in remote mode some entry
      passes validation; otherwise each entry's reply says whether it was an
      object, and the store holds every object entry in its envelope and
      nothing else new. */
  lemma {:induction false} RestoreOutcome(svc: Service, store: Medium<Json>, data: map<string, Json>,
                                          order: seq<string>, now: string)
    requires EnumeratesKeys(order, data)
    ensures var r := Restore(svc, store, data, order, now);
      && (r.result.Threw? <==> IsRemote(svc) && exists k :: k in data && IsObjectLike(data[k]))
      && (r.result.Returned? ==> forall k :: k in data ==> (r.result.value[k] == Written <==> IsObjectLike(data[k])))
      && (r.result.Returned? ==> RestoredStore(store, r.store, data, now))
  {
    RestoreThrows(svc, store, data, order, now);
    RestoreReplies(svc, store, data, order, now);
    RestoreStores(svc, store, data, order, now);
  }

  /** Some entry of `data` passes the default validation. */
  ghost predicate HasObjectEntry(data: map<string, Json>) {
    exists k :: k in data && IsObjectLike(data[k])
  }

  lemma {:induction false} HasObjectEntryRemove(data: map<string, Json>, key: string)
    requires key in data
    ensures HasObjectEntry(data) <==> HasObjectEntry(data - {key}) || IsObjectLike(data[key])
  {
    if HasObjectEntry(data) && !IsObjectLike(data[key]) {
      var k :| k in data && IsObjectLike(data[k]);
      assert k in data - {key};
    }
  }

  lemma {:induction false} RestoreThrows(svc: Service, store: Medium<Json>, data: map<string, Json>,
                                         order: seq<string>, now: string)
    requires EnumeratesKeys(order, data)
    ensures Restore(svc, store, data, order, now).result.Threw? <==> IsRemote(svc) && HasObjectEntry(data)
    decreases |order|
  {
    if |order| > 0 {
      var key := order[|order| - 1];
      EnumeratesWithoutLast(order, data);
      RestoreThrows(svc, store, data - {key}, order[..|order| - 1], now);
      HasObjectEntryRemove(data, key);
    } else {
      assert !HasObjectEntry(data);
    }
  }

  lemma {:induction false} RestoreReplies(svc: Service, store: Medium<Json>, data: map<string, Json>,
                                          order: seq<string>, now: string)
    requires EnumeratesKeys(order, data)
    ensures var r := Restore(svc, store, data, order, now);
      r.result.Returned? ==> forall k :: k in data ==> (r.result.value[k] == Written <==> IsObjectLike(data[k]))
    decreases |order|
  {
    if |order| > 0 {
      var key := order[|order| - 1];
      var restData := data - {key};
      EnumeratesWithoutLast(order, data);
      RestoreReplies(svc, store, restData, order[..|order| - 1], now);
      assert forall k :: k in data ==> k == key || (k in restData && restData[k] == data[k]);
    }
  }

  lemma {:induction false} RestoreStores(svc: Service, store: Medium<Json>, data: map<string, Json>,
                                         order: seq<string>, now: string)
    requires EnumeratesKeys(order, data)
    ensures var r := Restore(svc, store, data, order, now);
      r.result.Returned? ==> RestoredStore(store, r.store, data, now)
    decreases |order|
  {
    if |order| > 0 {
      var key := order[|order| - 1];
      var restData := data - {key};
      EnumeratesWithoutLast(order, data);
      RestoreStores(svc, store, restData, order[..|order| - 1], now);
      var earlier := Restore(svc, store, restData, order[..|order| - 1], now);
      if earlier.result.Returned? {
        var saved := Save(svc, earlier.store, key, data[key], DefaultSaveOptions, now, None);
        if saved.result.Returned? {
          RestoreStep(svc, store, earlier.store, restData, data, key, now);
        }
      }
    }
  }

  /** One entry of a restore extends the restored part of the store by that
      entry. */
  lemma {:induction false} RestoreStep(svc: Service, store: Medium<Json>, mid: Medium<Json>, restData: map<string, Json>,
                    data: map<string, Json>, key: string, now: string)
    requires key in data && restData == data - {key}
    requires RestoredStore(store, mid, restData, now)
    requires Save(svc, mid, key, data[key], DefaultSaveOptions, now, None).result.Returned?
    ensures RestoredStore(store, Save(svc, mid, key, data[key], DefaultSaveOptions, now, None).store, data, now)
  {
  }

  /** Backup followed by restore brings every backed-up record back: for a
      record without a `_metadata` field, `load` after the restore returns
      exactly what the backup recorded. */
  lemma {:induction false} BackupRestoreRoundTrip(svc: Service, store: Medium<Json>, keys: seq<string>, order: seq<string>,
                               now: string, later: string, key: string)
    requires !IsRemote(svc)
    requires BackupData(svc, store, keys).Returned?
    requires EnumeratesKeys(order, BackupData(svc, store, keys).value)
    requires key in BackupData(svc, store, keys).value
    requires BackupData(svc, store, keys).value[key].JObj?
    requires MetadataField !in BackupData(svc, store, keys).value[key].fields
    ensures var data := BackupData(svc, store, keys).value;
            var restored := Restore(svc, store, data, order, later).store;
            Load(svc, restored, key, JNull) == Returned(Read(data[key]))
  {
    var data := BackupData(svc, store, keys).value;
    RestoreOutcome(svc, store, data, order, later);
    var restored := Restore(svc, store, data, order, later).store;
    var e := Envelope(data[key], later);
    assert restored[key] == Encoded(e);
    assert e.fields - {MetadataField} == data[key].fields;
  }

  /** What `migrateToSupabase` would send: keys whose local text parses to a
      truthy value (the metadata envelope is not stripped here). */
  predicate Sendable(store: Medium<Json>, key: string) {
    key in store && store[key].Encoded? && Truthy(store[key].value)
  }

  datatype MigrateReply = Refused(failure: Failure) | Results(results: map<string, WriteReply>)

  /** `migrateToSupabase(keys)`. In remote mode it refuses. Locally it
      filters the keys; the first key it would send reaches the remote save,
      which rejects because no client exists, so the call rejects as soon as
      any key is sendable and otherwise resolves to no results. The medium is
      never changed. */
  function Migrate(svc: Service, store: Medium<Json>, keys: seq<string>): (r: Call<MigrateReply>)
    ensures IsRemote(svc) ==> r == Returned(Refused(AlreadyRemote))
    ensures !IsRemote(svc) ==> (r == Threw(NotInitialized) <==> exists k :: k in keys && Sendable(store, k))
    ensures !IsRemote(svc) && r.Returned? ==> r.value == Results(map[])
  {
    if IsRemote(svc) then Returned(Refused(AlreadyRemote))
    else MigrateLocal(store, keys)
  }

  function MigrateLocal(store: Medium<Json>, keys: seq<string>): (r: Call<MigrateReply>)
    ensures r == Threw(NotInitialized) <==> exists k :: k in keys && Sendable(store, k)
    ensures r.Returned? ==> r.value == Results(map[])
  {
    if |keys| == 0 then Returned(Results(map[]))
    else match LoadLocal(store, keys[0], JNull)
      case Read(v) =>
        if Truthy(v) then
          assert Sendable(store, keys[0]);
          Threw(NotInitialized)
        else
          var r := MigrateLocal(store, keys[1..]);
          assert forall k :: k in keys[1..] ==> k in keys;
          assert forall k :: k in keys ==> k == keys[0] || k in keys[1..];
          r
      case ReadFailed(_, _) =>
        var r := MigrateLocal(store, keys[1..]);
        assert forall k :: k in keys ==> k == keys[0] || k in keys[1..];
        r
  }
}
