/** The fallible KV cache (src/cache/read.ts and src/cache/kv.ts). */
module CacheStore {
  import opened Wrappers
  import opened JsText
  import opened Telemetry

  class KvNamespace<V> {
    var entries: map<Text, V>

    constructor ()
      ensures entries == map[]
    {
      entries := map[];
    }
  }

  /** `fails` says that the underlying read throws. */
  method CacheReadWithStatus<V>(kv: KvNamespace?<V>, key: Text, execution: Collector?, fails: bool)
    returns (value: Option<V>, status: CacheStatus)
    requires execution != null ==> execution.Valid()
    modifies execution
    ensures status == if kv == null then Disabled
                      else if fails then Unavailable
                      else if key in kv.entries then Hit else Miss
    ensures value == if status.Hit? then Some(kv.entries[key]) else None
    ensures execution != null ==> execution.Valid() && execution.events == old(execution.events) + [Status(status)]
  {
    value := None;
    if kv == null {
      status := Disabled;
    } else if fails {
      status := Unavailable;
    } else if key !in kv.entries {
      status := Miss;
    } else {
      value, status := Some(kv.entries[key]), Hit;
    }
    if execution != null {
      execution.RecordCacheStatus(status);
    }
  }

  /** `fails` says that the underlying write throws; the failure is swallowed. */
  method CacheSet<V>(kv: KvNamespace<V>, key: Text, value: V, fails: bool)
    modifies kv
    ensures kv.entries == if fails then old(kv.entries) else old(kv.entries)[key := value]
  {
    if !fails {
      kv.entries := kv.entries[key := value];
    }
  }
}
