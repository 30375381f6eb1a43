/** How the listing's display of a container's flags relates to what the
    listener does with that container's events. */
module Agreement {
  import opened Optional
  import opened Environment
  import opened ConfigStore
  import opened EventListener
  import opened ContainerListing

  /** On a well-formed configuration (every record has both flags) the flag a
      row shows is exactly whether the listener notifies that event. */
  lemma ListingMatchesListener(cfg: Config, c: Container)
    requires WellFormed(cfg)
    ensures RowOf(cfg, c).start <==> ShouldNotify("start", Lookup(cfg, c.id))
    ensures RowOf(cfg, c).stop <==> ShouldNotify("stop", Lookup(cfg, c.id))
  {
  }

  /** A stored record without one of the flags: the listing shows that flag
      as enabled (`.get(field, True)`), yet the listener's `.get(field)` is
      None, so no event of that action is ever sent for the container, and a
      relevant one is suppressed. */
  lemma MissingFieldDiverges(s: Settings, cfg: Config, c: Container, e: Event, field: string)
    requires field == "start" || field == "stop"
    requires c.id in cfg && field !in cfg[c.id]
    requires e.action == Some(field) && e.id == Some(c.id)
    ensures field == "start" ==> RowOf(cfg, c).start
    ensures field == "stop" ==> RowOf(cfg, c).stop
    ensures !Decide(s, cfg, e).Notified?
    ensures (e.kind == Some("container") && field in s.events && e.attributes.Some? && Triggered(s, e.attributes.value))
      ==> Decide(s, cfg, e) == Suppressed
  {
  }

  /** An instance of MissingFieldDiverges under the default settings: a
      record holding only `stop`. */
  lemma MissingStartExample(id: string)
    ensures var cfg := map[id := map["stop" := true]];
      var c := Container(id, "web1", None, "running", map["notify" := "true"]);
      var e := Event(Some("container"), Some("start"), Some(id), Some(map["notify" := "true"]));
      && RowOf(cfg, c).start
      && Decide(DefaultSettings(), cfg, e) == Suppressed
  {
    DefaultEvents();
    var cfg := map[id := map["stop" := true]];
    var c := Container(id, "web1", None, "running", map["notify" := "true"]);
    var e := Event(Some("container"), Some("start"), Some(id), Some(map["notify" := "true"]));
    MissingFieldDiverges(DefaultSettings(), cfg, c, e, "start");
  }
}
