/** The merge loop of `api_containers` (listener.py:433-450): the engine's
    container list, given as a sequence, filtered to the containers that carry
    the trigger label and value and joined with their toggle records. */
module ContainerListing {
  import opened Optional
  import opened Environment
  import opened ConfigStore
  import opened EventListener

  /** What the loop reads of a container: its id, name, `Config.Image`
      (None when missing), status and `Config.Labels` (a null or missing
      label set is the empty map). */
  datatype Container = Container(
    id: string,
    name: string,
    image: Option<string>,
    status: string,
    labels: map<string, string>)

  /** One entry of the JSON list the route returns. */
  datatype Row = Row(
    id: string,
    idShort: string,
    name: string,
    image: string,
    status: string,
    start: bool,
    stop: bool)

  /** The containers the listing keeps. */
  predicate Watched(s: Settings, c: Container)
  {
    Triggered(s, c.labels)
  }

  /** The row appended for a watched container. A flag shows true when the
      id has no record or its record lacks that field. */
  function RowOf(cfg: Config, c: Container): (r: Row)
    ensures r.start <==> c.id !in cfg || "start" !in cfg[c.id] || cfg[c.id]["start"]
    ensures r.stop <==> c.id !in cfg || "stop" !in cfg[c.id] || cfg[c.id]["stop"]
  {
    MakeRow(c, Lookup(cfg, c.id))
  }

  /** The dictionary literal of listener.py:442-450 for a container and the
      record read for it. */
  function MakeRow(c: Container, entry: Record): Row
  {
    Row(c.id, ShortId(c.id), c.name, if c.image.Some? then c.image.value else "", c.status,
        FieldOr(entry, "start", true), FieldOr(entry, "stop", true))
  }

  /** The list built by appending one row per watched container. */
  function Listing(s: Settings, cfg: Config, cs: seq<Container>): seq<Row>
    decreases |cs|
  {
    if cs == [] then []
    else
      var last := cs[|cs| - 1];
      Listing(s, cfg, cs[..|cs| - 1]) + (if Watched(s, last) then [RowOf(cfg, last)] else [])
  }

  /** The positions of the watched containers, in increasing order. */
  ghost function WatchedIndices(s: Settings, cs: seq<Container>): (idx: seq<nat>)
    ensures forall k :: 0 <= k < |idx| ==> idx[k] < |cs| && Watched(s, cs[idx[k]])
    ensures forall k, l :: 0 <= k < l < |idx| ==> idx[k] < idx[l]
    ensures forall i :: 0 <= i < |cs| && Watched(s, cs[i]) ==> i in idx
    decreases |cs|
  {
    if cs == [] then []
    else
      var n := |cs| - 1;
      var prev := WatchedIndices(s, cs[..n]);
      assert forall k :: 0 <= k < |prev| ==> cs[prev[k]] == cs[..n][prev[k]];
      assert forall i :: 0 <= i < n ==> cs[i] == cs[..n][i];
      prev + (if Watched(s, cs[n]) then [n] else [])
  }

  /** The listing is exactly the watched containers, in input order, each
      turned into its row. */
  lemma {:induction false} ListingExact(s: Settings, cfg: Config, cs: seq<Container>)
    ensures var idx := WatchedIndices(s, cs); var rows := Listing(s, cfg, cs);
      && |rows| == |idx|
      && forall k :: 0 <= k < |rows| ==> rows[k] == RowOf(cfg, cs[idx[k]])
    decreases |cs|
  {
    if cs != [] {
      var n := |cs| - 1;
      ListingExact(s, cfg, cs[..n]);
      var prev := WatchedIndices(s, cs[..n]);
      var before := Listing(s, cfg, cs[..n]);
      var idx := WatchedIndices(s, cs);
      var rows := Listing(s, cfg, cs);
      assert idx == prev + (if Watched(s, cs[n]) then [n] else []);
      assert rows == before + (if Watched(s, cs[n]) then [RowOf(cfg, cs[n])] else []);
      forall k | 0 <= k < |rows| ensures rows[k] == RowOf(cfg, cs[idx[k]]) {
        if k < |before| {
          assert rows[k] == before[k] && idx[k] == prev[k];
          assert cs[prev[k]] == cs[..n][prev[k]];
        }
      }
    }
  }

  /** Every row carries the id, its twelve-character prefix, the name, the
      image (empty when missing), the status, and the flags from the store
      with true for whatever is missing. */
  lemma RowContents(cfg: Config, c: Container)
    ensures var r := RowOf(cfg, c);
      && r.id == c.id && r.name == c.name && r.status == c.status
      && r.idShort <= c.id && |r.idShort| == (if |c.id| < 12 then |c.id| else 12)
      && r.image == (if c.image.Some? then c.image.value else "")
      && (c.id !in cfg ==> r.start && r.stop)
  {
  }

  /** The listing of concatenated container lists is the concatenation. */
  lemma {:induction false} ListingConcat(s: Settings, cfg: Config, a: seq<Container>, b: seq<Container>)
    ensures Listing(s, cfg, a + b) == Listing(s, cfg, a) + Listing(s, cfg, b)
    decreases |b|
  {
    if b == [] {
      assert a + b == a;
    } else {
      var n := |b| - 1;
      assert (a + b)[..|a + b| - 1] == a + b[..n];
      assert (a + b)[|a + b| - 1] == b[n];
      ListingConcat(s, cfg, a, b[..n]);
    }
  }

  /** The loop of `api_containers`, reading each record from the store. */
  method ListContainers(s: Settings, store: Store, cs: seq<Container>) returns (rows: seq<Row>)
    ensures rows == Listing(s, store.config, cs)
  {
    rows := [];
    var i := 0;
    while i < |cs|
      invariant 0 <= i <= |cs|
      invariant rows == Listing(s, store.config, cs[..i])
    {
      var c := cs[i];
      if Triggered(s, c.labels) {
        var entry := store.Get(c.id);
        rows := rows + [MakeRow(c, entry)];
      }
      assert cs[..i + 1][..i] == cs[..i];
      i := i + 1;
    }
    assert cs[..i] == cs;
  }
}
