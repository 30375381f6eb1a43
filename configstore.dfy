/** The in-memory toggle configuration of listener.py: a dictionary from
    container id to that container's record of per-event flags, read with a
    default (listener.py:93, listener.py:440) and changed only by the toggle
    of `api_toggle` (listener.py:421-425). */
module ConfigStore {
  import opened Optional

  /** A record as the JSON file holds it: field name to flag. A loaded file
      may hold records that lack `start` or `stop`. */
  type Record = map<string, bool>

  /** Container id to record. */
  type Config = map<string, Record>

  /** `{"start": True, "stop": True}`: every event enabled. */
  const DefaultRecord: Record := map["start" := true, "stop" := true]

  /** `config.get(id, {"start": True, "stop": True})` */
  function Lookup(cfg: Config, id: string): Record
  {
    if id in cfg then cfg[id] else DefaultRecord
  }

  /** `record.get(field)` used as a condition: a missing field is None,
      which is false (listener.py:95-96). */
  predicate Enabled(rec: Record, field: string)
  {
    field in rec && rec[field]
  }

  /** `record.get(field, default)` (listener.py:448-449). */
  function FieldOr(rec: Record, field: string, default: bool): bool
  {
    if field in rec then rec[field] else default
  }

  /** Every record has both flags, as every record the toggle creates has. */
  ghost predicate WellFormed(cfg: Config)
  {
    forall id :: id in cfg ==> "start" in cfg[id] && "stop" in cfg[id]
  }

  /** The configuration after a toggle request, and whether it completed
      (false: the `KeyError` raised at listener.py:424). */
  datatype ToggleResult = ToggleResult(config: Config, ok: bool)

  /** The map updates of listener.py:422-424: insert the default record for an
      absent id, then negate the named field. When the record has no such
      field the negation raises, and the inserted default stays in place. */
  function ApplyToggle(cfg: Config, id: string, event: string): ToggleResult
  {
    var withEntry := if id in cfg then cfg else cfg[id := DefaultRecord];
    var rec := withEntry[id];
    if event in rec then ToggleResult(withEntry[id := rec[event := !rec[event]]], true)
    else ToggleResult(withEntry, false)
  }

  /** Toggling an absent id starts from the default record: a recognised
      event succeeds, ends disabled, and leaves the other event enabled. */
  lemma ToggleAbsent(cfg: Config, id: string, event: string)
    requires id !in cfg
    requires event == "start" || event == "stop"
    ensures var r := ApplyToggle(cfg, id, event);
      && r.ok
      && r.config.Keys == cfg.Keys + {id}
      && r.config[id] == map["start" := event != "start", "stop" := event != "stop"]
  {
  }

  /** A toggle negates only the named field of the named id: the other fields,
      the other ids' records, and the key set apart from the id are unchanged;
      it fails exactly when the defaulted record lacks the field, and a failed
      toggle changes no defaulted lookup. */
  lemma ToggleFrame(cfg: Config, id: string, event: string)
    ensures var r := ApplyToggle(cfg, id, event); var before := Lookup(cfg, id);
      && r.config.Keys == cfg.Keys + {id}
      && (forall x :: x in cfg && x != id ==> r.config[x] == cfg[x])
      && (r.ok <==> event in before)
      && r.config[id].Keys == before.Keys
      && (forall f :: f in before && f != event ==> r.config[id][f] == before[f])
      && (r.ok ==> r.config[id][event] == !before[event])
      && (!r.ok ==> forall x :: Lookup(r.config, x) == Lookup(cfg, x))
  {
  }

  /** Toggling the same (id, event) twice restores every defaulted lookup, and
      both calls either succeed or fail together. */
  lemma ToggleTwice(cfg: Config, id: string, event: string)
    ensures var r1 := ApplyToggle(cfg, id, event); var r2 := ApplyToggle(r1.config, id, event);
      && r2.ok == r1.ok
      && forall x :: Lookup(r2.config, x) == Lookup(cfg, x)
  {
  }

  /** On a well-formed configuration `start` and `stop` toggles always
      succeed and keep the configuration well-formed. */
  lemma ToggleKeepsWellFormed(cfg: Config, id: string, event: string)
    requires WellFormed(cfg)
    ensures var r := ApplyToggle(cfg, id, event);
      && WellFormed(r.config)
      && ((event == "start" || event == "stop") ==> r.ok)
  {
  }

  /** The process-wide `config` dictionary, guarded in the source by
      `config_lock`. */
  class Store {
    var config: Config

    /** `init_config`: the loaded file, or the empty map when loading failed. */
    constructor (loaded: Option<Config>)
      ensures config == if loaded.Some? then loaded.value else map[]
    {
      config := if loaded.Some? then loaded.value else map[];
    }

    /** The record the listener and the listing act on: the stored one, or
        every event enabled for an id that has none. */
    function Get(id: string): (r: Record)
      reads this
      ensures id in config ==> r == config[id]
      ensures id !in config ==> r == DefaultRecord && Enabled(r, "start") && Enabled(r, "stop")
    {
      Lookup(config, id)
    }

    /** The body of `api_toggle`. `ok` is false when the record has no field
        named `event`; the default record inserted for an absent id then
        stays. */
    method Toggle(id: string, event: string) returns (ok: bool)
      modifies this
      ensures ok == ApplyToggle(old(config), id, event).ok
      ensures config == ApplyToggle(old(config), id, event).config
      ensures ok <==> event in old(Get(id))
      ensures ok ==> Get(id)[event] == !old(Get(id))[event]
      ensures forall x :: x != id ==> Get(x) == old(Get(x))
      ensures !ok ==> forall x :: Get(x) == old(Get(x))
    {
      if id !in config {
        config := config[id := DefaultRecord];
      }
      var rec := config[id];
      if event in rec {
        config := config[id := rec[event := !rec[event]]];
        ok := true;
      } else {
        ok := false;
      }
    }
  }
}
