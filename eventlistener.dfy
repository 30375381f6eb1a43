/** One pass of `docker_events_listener` (listener.py:78-102) over a finite
    stream of decoded engine events: the relevance gate, the container name,
    the per-container toggle decision and the message, with a delivered
    message recorded in an output sequence instead of being sent. */
module EventListener {
  import opened Optional
  import opened Environment
  import opened MessageTemplate
  import opened ConfigStore

  /** A decoded event: `event.get("Type")`, `event.get("Action")`,
      `event.get("id")` and `event["Actor"]["Attributes"]`, each None when
      the key is missing. */
  datatype Event = Event(
    kind: Option<string>,
    action: Option<string>,
    id: Option<string>,
    attributes: Option<map<string, string>>)

  /** What one event leads to: filtered out, an exception caught at
      listener.py:100, turned off by its toggle, or a delivered message. */
  datatype Outcome = Skipped | Raised | Suppressed | Notified(message: string)

  /** `id[:12]`: the first twelve characters, or the whole id when shorter. */
  function ShortId(id: string): (r: string)
    ensures |r| == if |id| < 12 then |id| else 12
    ensures r <= id
  {
    if |id| <= 12 then id else id[..12]
  }

  /** `labels.get("name", id[:12])` */
  function ContainerName(labels: map<string, string>, id: string): string
  {
    if "name" in labels then labels["name"] else ShortId(id)
  }

  /** The toggle decision of listener.py:95-96. */
  predicate ShouldNotify(action: string, rec: Record)
  {
    (action == "start" && Enabled(rec, "start")) || (action == "stop" && Enabled(rec, "stop"))
  }

  /** The body of the inner loop for one event, in the source's order: the
      type and action gates, the lookup of the attributes (a missing key
      raises), the trigger label, the id (the default argument `id[:12]` is
      evaluated, and raises on None, even when a name label exists), the
      toggle, and the formatting (an unknown placeholder raises). */
  function Decide(s: Settings, cfg: Config, e: Event): Outcome
  {
    if e.kind != Some("container") then Skipped
    else if e.action.None? || e.action.value !in s.events then Skipped
    else if e.attributes.None? then Raised
    else if !Triggered(s, e.attributes.value) then Skipped
    else if e.id.None? then Raised
    else
      var action := e.action.value;
      var name := ContainerName(e.attributes.value, e.id.value);
      if !ShouldNotify(action, Lookup(cfg, e.id.value)) then Suppressed
      else
        var m := Render(s.template, name, action);
        if m.Some? then Notified(m.value) else Raised
  }

  /** The messages one outcome delivers: at most one. */
  function Emitted(o: Outcome): seq<string>
  {
    if o.Notified? then [o.message] else []
  }

  /** The messages delivered over a finite event sequence, in order. */
  function Messages(s: Settings, cfg: Config, events: seq<Event>): seq<string>
    decreases |events|
  {
    if events == [] then []
    else Messages(s, cfg, events[..|events| - 1]) + Emitted(Decide(s, cfg, events[|events| - 1]))
  }

  /** The `for event in ...` loop over a finite stream, reading the store and
      collecting what `notify` is called with. It has no `modifies` clause:
      processing events never changes the store. */
  method Listen(s: Settings, store: Store, events: seq<Event>) returns (sent: seq<string>)
    ensures sent == Messages(s, store.config, events)
  {
    sent := [];
    var i := 0;
    while i < |events|
      invariant 0 <= i <= |events|
      invariant sent == Messages(s, store.config, events[..i])
    {
      var outcome := Decide(s, store.config, events[i]);
      if outcome.Notified? {
        sent := sent + [outcome.message];
      }
      assert events[..i + 1][..i] == events[..i];
      i := i + 1;
    }
    assert events[..i] == events;
  }

  /** An event that is not a container event is dropped before anything
      else is looked at. */
  lemma NonContainerSkipped(s: Settings, cfg: Config, e: Event)
    requires e.kind != Some("container")
    ensures Decide(s, cfg, e) == Skipped
  {
  }

  /** An action outside EVENTS (or a missing one) is dropped. */
  lemma UnwatchedActionSkipped(s: Settings, cfg: Config, e: Event)
    requires e.action.None? || e.action.value !in s.events
    ensures Decide(s, cfg, e) == Skipped
  {
  }

  /** Without the trigger label, or with a different value, nothing is sent;
      an event without attributes raises instead. */
  lemma UntriggeredNeverNotifies(s: Settings, cfg: Config, e: Event)
    requires e.attributes.None? || !Triggered(s, e.attributes.value)
    ensures !Decide(s, cfg, e).Notified?
    ensures e.attributes.Some? ==> Decide(s, cfg, e) == Skipped
  {
  }

  /** An event is notified only if it passes every gate and its toggle is on,
      and the message is the template filled with the container's name and
      the action. */
  lemma NotifiedOnlyIfRelevant(s: Settings, cfg: Config, e: Event)
    requires Decide(s, cfg, e).Notified?
    ensures e.kind == Some("container")
    ensures e.action.Some? && e.action.value in s.events
    ensures e.attributes.Some? && Triggered(s, e.attributes.value)
    ensures e.id.Some? && ShouldNotify(e.action.value, Lookup(cfg, e.id.value))
    ensures Render(s.template, ContainerName(e.attributes.value, e.id.value), e.action.value)
      == Some(Decide(s, cfg, e).message)
  {
  }

  /** For a relevant event and a template of `{name}`, `{event}` and text only,
      a message is sent exactly when the action is `start` with `start`
      enabled or `stop` with `stop` enabled, an absent id counting as
      both enabled; otherwise the event is suppressed. */
  lemma RelevantNotifiesIff(s: Settings, cfg: Config, e: Event)
    requires e.kind == Some("container")
    requires e.action.Some? && e.action.value in s.events
    requires e.attributes.Some? && Triggered(s, e.attributes.value)
    requires e.id.Some?
    requires forall k :: 0 <= k < |s.template| ==> !s.template[k].OtherField?
    ensures var action := e.action.value; var id := e.id.value;
      var rec := if id in cfg then cfg[id] else map["start" := true, "stop" := true];
      Decide(s, cfg, e).Notified? <==>
        (action == "start" && "start" in rec && rec["start"]) || (action == "stop" && "stop" in rec && rec["stop"])
    ensures !Decide(s, cfg, e).Notified? ==> Decide(s, cfg, e) == Suppressed
  {
    RenderSucceedsIff(s.template, ContainerName(e.attributes.value, e.id.value), e.action.value);
  }

  /** For a relevant event whose toggle is on, a template naming any other
      field makes `format` raise, so the event ends in the caught exception
      and nothing is sent. */
  lemma RelevantRaisesOnUnknownField(s: Settings, cfg: Config, e: Event)
    requires e.kind == Some("container")
    requires e.action.Some? && e.action.value in s.events
    requires e.attributes.Some? && Triggered(s, e.attributes.value)
    requires e.id.Some? && ShouldNotify(e.action.value, Lookup(cfg, e.id.value))
    requires exists k :: 0 <= k < |s.template| && s.template[k].OtherField?
    ensures Decide(s, cfg, e) == Raised
  {
    RenderSucceedsIff(s.template, ContainerName(e.attributes.value, e.id.value), e.action.value);
  }

  /** An action other than `start` and `stop` never sends a message, whatever
      EVENTS and the template are. */
  lemma OtherActionNeverNotifies(s: Settings, cfg: Config, e: Event)
    requires e.action.Some? && e.action.value != "start" && e.action.value != "stop"
    ensures !Decide(s, cfg, e).Notified?
  {
  }

  /** The name is the `name` label when present, otherwise the id cut to
      twelve characters. */
  lemma NameFallback(labels: map<string, string>, id: string)
    ensures "name" in labels ==> ContainerName(labels, id) == labels["name"]
    ensures "name" !in labels ==>
      ContainerName(labels, id) <= id && |ContainerName(labels, id)| == if |id| < 12 then |id| else 12
  {
  }

  /** A relevant event without an id raises even when it carries a name
      label, because the fallback `id[:12]` is evaluated first. */
  lemma MissingIdRaises(s: Settings, cfg: Config, e: Event)
    requires e.kind == Some("container")
    requires e.action.Some? && e.action.value in s.events
    requires e.attributes.Some? && Triggered(s, e.attributes.value)
    requires e.id.None?
    ensures Decide(s, cfg, e) == Raised
  {
  }

  /** With the default settings and an empty configuration, a labelled
      container `web1` starting gives "Container web1 start". */
  lemma DefaultStartMessage(id: string)
    ensures Decide(DefaultSettings(), map[],
      Event(Some("container"), Some("start"), Some(id), Some(map["notify" := "true", "name" := "web1"])))
      == Notified("Container web1 start")
  {
    DefaultEvents();
    DefaultMessage();
    StartMessage(DefaultSettings(), id);
  }

  /** The step of DefaultStartMessage that does not depend on how the
      settings were computed. */
  lemma StartMessage(s: Settings, id: string)
    requires "start" in s.events && s.triggerLabel == "notify" && s.triggerValue == "true"
    requires Render(s.template, "web1", "start") == Some("Container web1 start")
    ensures Decide(s, map[],
      Event(Some("container"), Some("start"), Some(id), Some(map["notify" := "true", "name" := "web1"])))
      == Notified("Container web1 start")
  {
  }

  /** Messages over concatenated streams are the concatenated messages: the
      output follows event order. */
  lemma {:induction false} MessagesConcat(s: Settings, cfg: Config, a: seq<Event>, b: seq<Event>)
    ensures Messages(s, cfg, a + b) == Messages(s, cfg, a) + Messages(s, cfg, b)
    decreases |b|
  {
    if b == [] {
      assert a + b == a;
    } else {
      var n := |b| - 1;
      assert (a + b)[..|a + b| - 1] == a + b[..n];
      assert (a + b)[|a + b| - 1] == b[n];
      MessagesConcat(s, cfg, a, b[..n]);
    }
  }

  /** An event contributes its own outcome's message, at most one, between
      the messages of the events before it and those after it; an event that
      raises contributes nothing and the later events are still processed. */
  lemma MessagesAround(s: Settings, cfg: Config, before: seq<Event>, e: Event, after: seq<Event>)
    ensures Messages(s, cfg, before + [e] + after)
      == Messages(s, cfg, before) + Emitted(Decide(s, cfg, e)) + Messages(s, cfg, after)
    ensures |Emitted(Decide(s, cfg, e))| <= 1
    ensures Decide(s, cfg, e) == Raised ==>
      Messages(s, cfg, before + [e] + after) == Messages(s, cfg, before) + Messages(s, cfg, after)
  {
    MessagesConcat(s, cfg, before + [e], after);
    var front := before + [e];
    assert front[..|front| - 1] == before && front[|front| - 1] == e;
    assert Messages(s, cfg, front) == Messages(s, cfg, before) + Emitted(Decide(s, cfg, e));
  }

  /** At most one message per event. */
  lemma {:induction false} MessagesBound(s: Settings, cfg: Config, events: seq<Event>)
    ensures |Messages(s, cfg, events)| <= |events|
    decreases |events|
  {
    if events != [] {
      MessagesBound(s, cfg, events[..|events| - 1]);
    }
  }
}
