# docker-discord-notify: decision and state core

`listener.py` watches the Docker event stream and sends a Discord message
when a container carrying a trigger label (`notify=true` by default) starts
or stops. Each container has a toggle record `{start, stop}`, kept in a
JSON-backed dictionary, that switches each event's notification on or off.
This project models the logic beneath the Flask, Docker SDK and curl
plumbing and proves properties of it:

- `Environment`: the settings read at start-up, passed in as values. This
  includes `EVENTS`, which is split on `,` exactly as Python's `str.split`
  does.
- `MessageTemplate`: `MESSAGE_TEMPLATE` as a sequence of segments (literal
  text, `{name}`, `{event}`, any other field), and the `format` call that
  fills it in.
- `ConfigStore`: the `config` dictionary as the class `Store`. It has a
  defaulted lookup `Get` and the in-place `Toggle` of `api_toggle`, both
  specified by the pure functions `Lookup` and `ApplyToggle`.
- `EventListener`: the per-event body of `docker_events_listener` as the
  function `Decide`. The loop is the method `Listen`, which runs over a
  finite event sequence and returns the messages handed to `notify`, in
  order.
- `ContainerListing`: the merge loop of `api_containers` as the method
  `ListContainers`, which runs over a given container list.
- `Agreement`: how the listing's display of a record relates to what the
  listener does with it.

A record is a `map<string, bool>`, like the JSON object it is loaded from.
A record read from the file may therefore lack `start` or `stop`. The model
keeps the source's two different readings of a missing field:

- the listener's `.get("start")` treats it as false;
- the listing's `.get("start", True)` treats it as true.

`MissingFieldDiverges` exhibits this difference. `ListingMatchesListener`
shows that it disappears when every record has both fields, and the toggle
keeps that property (`ToggleKeepsWellFormed`).

Behaviour of the code worth knowing:

- A template placeholder other than `{name}` / `{event}` makes `format`
  raise (listener.py:97). The exception is caught per event
  (listener.py:100) and nothing is sent for that event
  (`RelevantRaisesOnUnknownField`).
- A toggle with an event name the record has no field for first inserts
  the default record for an absent id (listener.py:422-423). Reading the
  missing field then raises `KeyError` (listener.py:424), and the inserted
  record stays in memory. `ToggleFrame` proves that this is invisible
  through the defaulted lookup.
- The toggle route answers `{"status": "ok"}` (listener.py:427) and does
  not return the record. `save_config` catches a write error and only
  prints it (listener.py:57-58), so the caller is never told of it.
- A relevant event without an `id` raises even when it has a `name` label.
  This is because the fallback argument `id[:12]` is evaluated eagerly
  (`MissingIdRaises`).

## Model

| member | source | states |
|---|---|---|
| `Environment.Split` | listener.py:15 | the pieces of the EVENTS string are never empty as a list and never contain the separator |
| `Environment.JoinSplit` | listener.py:15 | joining the split pieces with `,` gives back the original EVENTS string |
| `Environment.SplitJoin` | listener.py:15 | splitting a join of separator-free pieces gives back the pieces (Split and Join are inverse) |
| `Environment.DefaultEvents` | listener.py:15 | the default `"start,stop"` watches exactly `["start", "stop"]` |
| `Environment.UntrimmedEvents` | listener.py:15 | no trimming: `"start, stop"` watches `"start"` and `" stop"`, so `stop` is not watched |
| `MessageTemplate.RenderSucceedsIff` | listener.py:97-100 | formatting succeeds iff the template has no field other than `name` and `event` |
| `MessageTemplate.RenderConcat` | listener.py:97 | formatting a concatenated template concatenates the messages, failing if either part fails |
| `MessageTemplate.DefaultMessage` | listener.py:16 | the default template with `web1` / `start` gives `"Container web1 start"` |
| `ConfigStore.ToggleAbsent` | listener.py:422-424 | toggling an absent id succeeds, adds only that id, and leaves the named field false and the other true |
| `ConfigStore.ToggleFrame` | listener.py:422-424 | only the named field of the named id changes: other fields, other ids and the key set (plus the id) are kept; the toggle fails iff the defaulted record lacks the field, and a failed toggle changes no defaulted lookup |
| `ConfigStore.ToggleTwice` | listener.py:422-424 | two identical toggles restore the defaulted lookup of every id, and succeed or fail together |
| `ConfigStore.ToggleKeepsWellFormed` | listener.py:422-424 | on records with both flags, `start`/`stop` toggles always succeed and keep every record complete |
| `ConfigStore.Store.constructor` | listener.py:18-28 | the store starts from the loaded configuration, or empty when loading failed |
| `ConfigStore.Store.Get` | listener.py:93 | the stored record, or the all-enabled default for an id with none |
| `ConfigStore.Store.Toggle` | listener.py:421-425 | the new map is the pure toggle of the old one; success iff the defaulted record has the field; that field is negated; every other id reads as before; a failure changes no lookup |
| `EventListener.ShortId` | listener.py:90 | `id[:12]` is a prefix of the id whose length is 12 or the whole id when shorter |
| `EventListener.NonContainerSkipped` | listener.py:80-81 | an event whose Type is not `container` is skipped |
| `EventListener.UnwatchedActionSkipped` | listener.py:83-85 | an event whose Action is missing or not in EVENTS is skipped |
| `EventListener.UntriggeredNeverNotifies` | listener.py:87-88 | without the exact trigger label and value no message is sent (skipped; missing attributes raise) |
| `EventListener.NotifiedOnlyIfRelevant` | listener.py:80-98 | a message is sent only for a container event with a watched action, the trigger label and value, an id and its toggle on, and it is the template filled with the name and the action |
| `EventListener.RelevantNotifiesIff` | listener.py:92-98 | for a relevant event and a template made only of text, `{name}` and `{event}`: it notifies iff (start and record.start) or (stop and record.stop), an absent id counting as all enabled, a missing field as off; otherwise it is suppressed |
| `EventListener.RelevantRaisesOnUnknownField` | listener.py:95-102 | a relevant event whose toggle is on, under a template naming any other field, raises in `format` and sends nothing |
| `EventListener.OtherActionNeverNotifies` | listener.py:95-96 | an action other than `start`/`stop` never notifies, for every EVENTS setting and template |
| `EventListener.NameFallback` | listener.py:90 | the name is the `name` label if present, else the first 12 characters of the id (all of it if shorter) |
| `EventListener.MissingIdRaises` | listener.py:89-90 | a relevant event without an id raises even with a `name` label |
| `EventListener.DefaultStartMessage` | listener.py:80-98 | under default settings and an empty config, `web1` starting with the trigger label gives `"Container web1 start"` |
| `EventListener.Listen` | listener.py:78-102 | the messages sent over an event sequence are its fold `Messages`; the store is not modified |
| `EventListener.MessagesConcat` | listener.py:78-102 | messages of concatenated streams are concatenated: output follows event order |
| `EventListener.MessagesAround` | listener.py:100-102 | each event contributes its own at most one message in place; a raising event contributes none and later events still produce theirs |
| `EventListener.MessagesBound` | listener.py:78-98 | at most one message per event |
| `ContainerListing.RowOf` | listener.py:440-449 | a row's start/stop is true iff the id has no record, the field is missing, or the stored flag is true |
| `ContainerListing.WatchedIndices` | listener.py:433-437 | the positions of exactly the containers carrying the trigger label and value, increasing |
| `ContainerListing.ListingExact` | listener.py:433-450 | the listing is exactly the watched containers in input order, each as its row |
| `ContainerListing.RowContents` | listener.py:442-449 | a row carries the id, its 12-character prefix, name, image (empty if missing), status, and all-true flags for an absent id |
| `ContainerListing.ListingConcat` | listener.py:433-450 | the listing of concatenated container lists is the concatenation of the listings |
| `ContainerListing.ListContainers` | listener.py:431-450 | the rows the loop appends are `Listing` of the input; the store is not modified |
| `Agreement.ListingMatchesListener` | listener.py:95-96 | with complete records, the flags the listing shows are exactly the listener's notify decisions |
| `Agreement.MissingFieldDiverges` | listener.py:448-449 | for every config and record lacking `start` (or `stop`): the listing shows that flag enabled, yet no event of that action is sent, and a relevant one is suppressed |
| `Agreement.MissingStartExample` | listener.py:95-96 | under the default settings, a record holding only `stop` lists `start` as enabled while a start event is suppressed |

## Left out

- Flask routes, JSON request and response handling and the HTML page
  (listener.py:109-416, 426-427, 456). These are transport and UI; the
  toggle's `id` and `event` are parameters, and a request body missing
  them is not modelled.
- Docker client calls (`docker.from_env`, `client.events`,
  `containers.list`, `ping`). These are foreign calls. Events and
  containers are input sequences of already-decoded values, and a failure
  of the listing call itself (listener.py:453-454) is not modelled.
- The per-container `except` of the listing (listener.py:451-452). With
  containers given as decoded values nothing in the loop body can raise,
  including a `Config` that is not a dictionary.
- `notify`'s print and curl call (listener.py:61-72). Delivery is modelled
  as the message appearing in `Listen`'s output, because the curl failure
  is swallowed and `notify` always returns.
- Config file load and save (listener.py:36-58), the reload inside `index`
  (listener.py:415) and the write-access probe (listener.py:472-478). These
  are filesystem I/O. A load failure is the constructor's `None`
  argument, which yields the empty map.
- Record values. They are bools or missing. A JSON value of another type,
  or a file that is not an object of objects, is not modelled.
- `config_lock`, the listener thread and concurrent toggles (listener.py:32,
  92, 439, 481-485). This is concurrency. Each operation runs atomically on
  a single store.
- The `time.sleep` back-offs and the outer `while True` re-subscription
  loop (listener.py:76, 102, 104-106). These concern timing and
  non-termination, so `Listen` is one pass over a finite sequence.
- Parsing a template string into segments, positional fields, format
  specs, conversions and `{{` escapes. The template is given already cut
  into `Literal`, `NameField`, `EventField` and `OtherField` segments.
- Reading environment variables and the logging prints. Settings are
  values.
