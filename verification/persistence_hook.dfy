/** The `usePersistence` hook: the service singleton, the hook's state
    (data, loading, error, saving and its one pending save timer), and the
    load, update, debounced save, manual save and remove transitions, plus
    the two keyed hooks. Each handler is one synchronous transition; clock
    values and host faults are inputs. */
module PersistenceHook {
  import opened Wrappers
  import opened Json
  import opened PersistenceService
  import Debounce

  /** The module-level `persistenceService` variable. */
  datatype Registry = Registry(instance: Option<Service>)

  datatype Initialized = Initialized(registry: Registry, service: Service)

  /** `initializePersistenceService(config)`: builds the service on the first
      call only; every later call returns that first instance, whatever
      configuration it passes. */
  function Initialize(reg: Registry, config: Config): (r: Initialized)
    ensures r.registry.instance == Some(r.service)
    ensures reg.instance.Some? ==> r.service == reg.instance.value
    ensures reg.instance.None? ==> r.service == Construct(config)
  {
    match reg.instance
    case Some(s) => Initialized(reg, s)
    case None => var s := Construct(config); Initialized(Registry(Some(s)), s)
  }

  /** Two initializations with different configurations yield the same
      service: the one the first configuration built. */
  lemma {:induction false} FirstConfigurationWins(first: Config, second: Config)
    ensures var one := Initialize(Registry(None), first);
            Initialize(one.registry, second).service == Construct(first)
  {
  }

  datatype Options = Options(schema: Option<Schema>, debounce: bool, autoSave: bool, storageConfig: Config)

  const DefaultOptions := Options(None, true, true, LocalConfig)

  /** The hook's arguments: storage key, initial value and options. */
  datatype HookConfig = HookConfig(key: string, initial: Json, options: Options)

  /** The delay of the hook's own save timer when debouncing. */
  const SaveDelay := 1000

  datatype State = State(data: Json, loading: bool, error: Option<Failure>, saving: bool,
                         pending: Debounce.Table<Json>)

  /** A transition's result: new hook state, medium, and the boolean the
      handler resolves to (where it has one). */
  datatype Effect = Effect(hook: State, store: Medium<Json>, ok: bool)

  /** The state on first render, before the load effect. */
  function Start(cfg: HookConfig): (h: State)
    ensures h.data == cfg.initial && h.loading && h.error.None? && !h.saving && h.pending == map[]
  {
    State(cfg.initial, true, None, false, map[])
  }

  /** The load effect: a successful load installs the loaded value, or the
      initial value when that is falsy; a failed or rejected load records the
      error and resets to the initial value. */
  function LoadOnMount(h: State, svc: Service, store: Medium<Json>, cfg: HookConfig): (r: State)
    ensures !r.loading && r.saving == h.saving && r.pending == h.pending
    ensures r.error.None? <==> (Load(svc, store, cfg.key, cfg.initial).Returned?
                                && Load(svc, store, cfg.key, cfg.initial).value.Read?)
    ensures (r.error.None? && Truthy(Load(svc, store, cfg.key, cfg.initial).value.data))
              ==> r.data == Load(svc, store, cfg.key, cfg.initial).value.data
    ensures (r.error.None? && !Truthy(Load(svc, store, cfg.key, cfg.initial).value.data))
              ==> r.data == cfg.initial
    ensures r.data == cfg.initial || r.error.None?
    ensures !HasTruthyMetadata(cfg.initial) ==> !HasTruthyMetadata(r.data)
  {
    match Load(svc, store, cfg.key, cfg.initial)
    case Returned(Read(v)) => h.(data := if Truthy(v) then v else cfg.initial, loading := false, error := None)
    case Returned(ReadFailed(f, _)) => h.(data := cfg.initial, loading := false, error := Some(f))
    case Threw(f) => h.(data := cfg.initial, loading := false, error := Some(f))
  }

  /** `saveData(newData)`: saves through the service with the hook's schema;
      resolves to true exactly when the service wrote the record. Data is
      not touched. */
  function SaveData(h: State, svc: Service, store: Medium<Json>, cfg: HookConfig, newData: Json,
                    now: string, fault: Option<string>): (r: Effect)
    ensures r.ok <==> ValidateData(newData, cfg.options.schema) && !IsRemote(svc) && fault.None?
    ensures r.ok ==> r.store == store[cfg.key := Encoded(Envelope(newData, now))] && r.hook.error.None?
    ensures !r.ok ==> r.store == store && r.hook.error.Some?
    ensures r.hook.data == h.data && r.hook.pending == h.pending && !r.hook.saving
  {
    var saved := Save(svc, store, cfg.key, newData, SaveOptions(true, cfg.options.schema), now, fault);
    match saved.result
    case Returned(Written) => Effect(h.(saving := false, error := None), saved.store, true)
    case Returned(WriteFailed(f)) => Effect(h.(saving := false, error := Some(f)), saved.store, false)
    case Threw(f) => Effect(h.(saving := false, error := Some(f)), saved.store, false)
  }

  /** `setData` (the hook's `updateData`) at clock value `now`: the new data
      is installed at once; with auto-save off nothing else happens; with
      debouncing the save is only scheduled, replacing any pending one; else
      it is saved immediately. */
  function UpdateData(h: State, svc: Service, store: Medium<Json>, cfg: HookConfig, newData: Json,
                      now: int, clock: string, fault: Option<string>): (r: Effect)
    ensures r.hook.data == newData
    ensures !cfg.options.autoSave ==> r.store == store && r.hook.pending == h.pending && r.hook.error == h.error
    ensures cfg.options.autoSave && cfg.options.debounce ==>
              r.store == store && r.hook.pending == Debounce.Schedule(h.pending, cfg.key, newData, now, SaveDelay)
    ensures cfg.options.autoSave && !cfg.options.debounce ==>
              r == SaveData(h.(data := newData), svc, store, cfg, newData, clock, fault)
  {
    var h1 := h.(data := newData);
    if !cfg.options.autoSave then Effect(h1, store, true)
    else if cfg.options.debounce then
      Effect(h1.(pending := Debounce.Schedule(h.pending, cfg.key, newData, now, SaveDelay)), store, true)
    else SaveData(h1, svc, store, cfg, newData, clock, fault)
  }

  /** The hook's save timer reaching `now`: if it is due it saves the data it
      was scheduled with, and is gone. */
  function TimerFires(h: State, svc: Service, store: Medium<Json>, cfg: HookConfig, now: int,
                      clock: string, fault: Option<string>): (r: Effect)
    ensures cfg.key !in h.pending || h.pending[cfg.key].due > now ==> r.store == store && r.hook == h
    ensures cfg.key in h.pending && h.pending[cfg.key].due <= now ==>
              r == SaveData(h.(pending := h.pending - {cfg.key}), svc, store, cfg, h.pending[cfg.key].job, clock, fault)
  {
    var fired := Debounce.Fire(h.pending, cfg.key, now);
    match fired.job
    case None => Effect(h, store, true)
    case Some(d) => SaveData(h.(pending := fired.table), svc, store, cfg, d, clock, fault)
  }

  /** The manual `save()`: saves the current data, resolving true exactly
      when the service writes it. */
  function ManualSave(h: State, svc: Service, store: Medium<Json>, cfg: HookConfig, clock: string,
                      fault: Option<string>): (r: Effect)
    ensures r.ok <==> ValidateData(h.data, cfg.options.schema) && !IsRemote(svc) && fault.None?
    ensures r.ok ==> r.store == store[cfg.key := Encoded(Envelope(h.data, clock))] && r.hook.error.None?
    ensures !r.ok ==> r.store == store && r.hook.error.Some?
    ensures r.hook.data == h.data && r.hook.pending == h.pending && !r.hook.saving
  {
    SaveData(h, svc, store, cfg, h.data, clock, fault)
  }

  /** A record saved by hand is what the next mount shows: the load effect
      reads it back without error. */
  lemma {:induction false} ManualSaveThenRemount(h: State, svc: Service, store: Medium<Json>, cfg: HookConfig,
                                                 clock: string, fields: map<string, Json>, later: State)
    requires h.data == JObj(fields) && MetadataField !in fields
    requires ManualSave(h, svc, store, cfg, clock, None).ok
    ensures var r := LoadOnMount(later, svc, ManualSave(h, svc, store, cfg, clock, None).store, cfg);
      r.error.None? && r.data == h.data
  {
    SaveThenLoad(svc, store, cfg.key, fields, SaveOptions(true, cfg.options.schema), clock, cfg.initial);
  }

  /** `remove()`: on success the key is gone and data returns to the initial
      value; on failure the error is recorded and data is kept. A debounced
      save already scheduled is not cancelled. */
  function RemoveData(h: State, svc: Service, store: Medium<Json>, cfg: HookConfig, fault: Option<string>)
    : (r: Effect)
    ensures r.ok <==> !IsRemote(svc) && fault.None?
    ensures r.ok ==> r.store == store - {cfg.key} && r.hook.data == cfg.initial && r.hook.error == h.error
    ensures !r.ok ==> r.store == store && r.hook.data == h.data && r.hook.error.Some?
    ensures r.hook.pending == h.pending && r.hook.loading == h.loading && r.hook.saving == h.saving
  {
    var removed := Remove(svc, store, cfg.key, fault);
    match removed.result.value
    case Written => Effect(h.(data := cfg.initial), removed.store, true)
    case WriteFailed(f) => Effect(h.(error := Some(f)), removed.store, false)
  }

  /** A remove does not stop a debounced save scheduled before it: when that
      timer fires, the key is written again with the scheduled data. */
  lemma {:induction false} PendingSaveOutlivesRemove(h: State, svc: Service, store: Medium<Json>, cfg: HookConfig,
                                                     now: int, clock: string)
    requires cfg.key in h.pending && h.pending[cfg.key].due <= now
    requires RemoveData(h, svc, store, cfg, None).ok
    requires ValidateData(h.pending[cfg.key].job, cfg.options.schema)
    ensures var removed := RemoveData(h, svc, store, cfg, None);
      var fired := TimerFires(removed.hook, svc, removed.store, cfg, now, clock, None);
      && fired.ok
      && fired.store == store[cfg.key := Encoded(Envelope(h.pending[cfg.key].job, clock))]
  {
    var removed := RemoveData(h, svc, store, cfg, None);
    assert (store - {cfg.key})[cfg.key := Encoded(Envelope(h.pending[cfg.key].job, clock))]
        == store[cfg.key := Encoded(Envelope(h.pending[cfg.key].job, clock))];
  }

  /** A burst of updates, the i-th at clock value `times[i]`. */
  function UpdateBurst(h: State, svc: Service, store: Medium<Json>, cfg: HookConfig, datas: seq<Json>,
                       times: seq<int>, clock: string): Effect
    requires |datas| == |times|
  {
    if |datas| == 0 then Effect(h, store, true)
    else
      var before := UpdateBurst(h, svc, store, cfg, datas[..|datas| - 1], times[..|times| - 1], clock);
      UpdateData(before.hook, svc, before.store, cfg, datas[|datas| - 1], times[|times| - 1], clock, None)
  }

  /** With auto-save and debouncing on, a burst of updates writes nothing
      while it lasts; it leaves one pending save, of the last data. */
  lemma {:induction false} DebouncedBurstWritesNothing(h: State, svc: Service, store: Medium<Json>,
                                                       cfg: HookConfig, datas: seq<Json>, times: seq<int>, clock: string)
    requires |datas| == |times|
    requires cfg.options.autoSave && cfg.options.debounce
    ensures var r := UpdateBurst(h, svc, store, cfg, datas, times, clock);
      && r.store == store
      && r.hook.pending == Debounce.Burst(h.pending, cfg.key, datas, times, SaveDelay)
  {
    if |datas| > 0 {
      DebouncedBurstWritesNothing(h, svc, store, cfg, datas[..|datas| - 1], times[..|times| - 1], clock);
    }
  }

  /** Once the pending timer of a burst fires, the store holds the last data
      of the burst (in its envelope); earlier data of the burst is never
      written. */
  lemma {:induction false} DebouncedBurstSavesLast(h: State, svc: Service, store: Medium<Json>, cfg: HookConfig,
                                datas: seq<Json>, times: seq<int>, now: int, clock: string)
    requires |datas| == |times| && |datas| > 0
    requires cfg.options.autoSave && cfg.options.debounce
    requires now >= times[|times| - 1] + SaveDelay
    requires ValidateData(datas[|datas| - 1], cfg.options.schema) && !IsRemote(svc)
    ensures var burst := UpdateBurst(h, svc, store, cfg, datas, times, clock);
            var fired := TimerFires(burst.hook, svc, burst.store, cfg, now, clock, None);
            fired.store == store[cfg.key := Encoded(Envelope(datas[|datas| - 1], clock))]
  {
    DebouncedBurstWritesNothing(h, svc, store, cfg, datas, times, clock);
    Debounce.BurstKeepsLast(h.pending, cfg.key, datas, times, SaveDelay);
  }

  // ---- keyed hooks ----

  /** `useRoadmapPersistence(initial)`. */
  function RoadmapHook(initial: Json): (cfg: HookConfig)
    ensures cfg.key == "roadmapData" && cfg.initial == initial
    ensures cfg.options.schema == Some(RoadmapSchema) && cfg.options.debounce && cfg.options.autoSave
  {
    HookConfig("roadmapData", initial, Options(Some(RoadmapSchema), true, true, LocalConfig))
  }

  /** `useContentPersistence(initial)`. */
  function ContentHook(initial: Json): (cfg: HookConfig)
    ensures cfg.key == "xandeum-content" && cfg.initial == initial
    ensures cfg.options.schema == Some(ContentSchema) && cfg.options.debounce && cfg.options.autoSave
  {
    HookConfig("xandeum-content", initial, Options(Some(ContentSchema), true, true, LocalConfig))
  }

  /** The roadmap hook never writes a record whose `quarters` is missing or
      whose `lastUpdated` is not a string. */
  lemma {:induction false} RoadmapHookRejectsMalformed(h: State, svc: Service, store: Medium<Json>, initial: Json,
                                    fields: map<string, Json>, clock: string)
    requires "quarters" !in fields || !("lastUpdated" in fields && fields["lastUpdated"].JStr?)
    ensures var r := SaveData(h, svc, store, RoadmapHook(initial), JObj(fields), clock, None);
            !r.ok && r.store == store
  {
    var d := JObj(fields);
    if "quarters" !in fields {
      assert !HasKind(d, RoadmapSchema[1]);
    } else {
      assert !HasKind(d, RoadmapSchema[0]);
    }
  }

  /** `useSupabasePersistence(key, initial, options)`: the caller's options
      with the remote configuration, whose settings object is always
      present (its fields come from the environment). */
  function SupabaseHook(key: string, initial: Json, options: Options): (c: HookConfig)
    ensures c.key == key && c.initial == initial
    ensures c.options.storageConfig == RemoteConfig
    ensures c.options.(storageConfig := options.storageConfig) == options
  {
    HookConfig(key, initial, options.(storageConfig := RemoteConfig))
  }

  /** The remote hook never reaches the remote backend: whether it creates
      the singleton or finds a local one already there, the service it uses
      stores locally. */
  lemma {:induction false} SupabaseHookStaysLocal(reg: Registry, key: string, initial: Json, options: Options)
    requires reg.instance.None? || !IsRemote(reg.instance.value)
    ensures !IsRemote(Initialize(reg, SupabaseHook(key, initial, options).options.storageConfig).service)
  {
  }
}
