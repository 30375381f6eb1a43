/** The settings read from the environment at start-up (listener.py:13-16),
    passed to the model as plain values, and the `str.split(",")` that turns
    the EVENTS variable into the list of watched actions. */
module Environment {
  import opened MessageTemplate

  /** TRIGGER_LABEL, TRIGGER_VALUE, EVENTS and MESSAGE_TEMPLATE. */
  datatype Settings = Settings(
    triggerLabel: string,
    triggerValue: string,
    events: seq<string>,
    template: Template)

  /** The settings when none of the variables is set. */
  function DefaultSettings(): Settings
  {
    Settings("notify", "true", Split("start,stop", ','), DefaultTemplate)
  }

  /** `labels.get(TRIGGER_LABEL) == TRIGGER_VALUE`: a missing label reads as
      None, which equals no string. */
  predicate Triggered(s: Settings, labels: map<string, string>)
  {
    s.triggerLabel in labels && labels[s.triggerLabel] == s.triggerValue
  }

  /** Python's `s.split(sep)` with an explicit separator: every occurrence
      cuts, empty pieces are kept, nothing is trimmed, and the empty string
      gives one empty piece. */
  function Split(s: string, sep: char): (parts: seq<string>)
    ensures |parts| >= 1
    ensures forall k :: 0 <= k < |parts| ==> sep !in parts[k]
    decreases |s|
  {
    if s == [] then [""]
    else
      var rest := Split(s[1..], sep);
      if s[0] == sep then [""] + rest
      else [[s[0]] + rest[0]] + rest[1..]
  }

  /** `sep.join(parts)`, the inverse of Split. */
  function Join(parts: seq<string>, sep: char): string
    decreases |parts|
  {
    if |parts| == 0 then ""
    else if |parts| == 1 then parts[0]
    else parts[0] + [sep] + Join(parts[1..], sep)
  }

  /** Joining the pieces back with the separator gives the original string. */
  lemma {:induction false} JoinSplit(s: string, sep: char)
    ensures Join(Split(s, sep), sep) == s
    decreases |s|
  {
    if s != [] {
      var rest := Split(s[1..], sep);
      JoinSplit(s[1..], sep);
      if s[0] == sep {
        assert ([""] + rest)[1..] == rest;
        assert Join([""] + rest, sep) == "" + [sep] + Join(rest, sep);
        assert s == [sep] + s[1..];
      } else {
        var parts := [[s[0]] + rest[0]] + rest[1..];
        if |rest| == 1 {
          assert Join(parts, sep) == [s[0]] + rest[0];
        } else {
          assert parts[1..] == rest[1..];
          assert Join(rest, sep) == rest[0] + [sep] + Join(rest[1..], sep);
          assert Join(parts, sep) == [s[0]] + rest[0] + [sep] + Join(rest[1..], sep);
        }
        assert s == [s[0]] + s[1..];
      }
    }
  }

  /** A string without the separator is one piece. */
  lemma {:induction false} SplitWithoutSeparator(s: string, sep: char)
    requires sep !in s
    ensures Split(s, sep) == [s]
    decreases |s|
  {
    if s != [] {
      SplitWithoutSeparator(s[1..], sep);
      assert [s[0]] + s[1..] == s;
    }
  }

  /** A separator-free prefix followed by the separator is cut off as the
      first piece. */
  lemma {:induction false} SplitAfterSeparator(p: string, sep: char, t: string)
    requires sep !in p
    ensures Split(p + [sep] + t, sep) == [p] + Split(t, sep)
    decreases |p|
  {
    var s := p + [sep] + t;
    if p == [] {
      assert s[0] == sep && s[1..] == t;
    } else {
      assert s[0] == p[0] && s[1..] == p[1..] + [sep] + t;
      SplitAfterSeparator(p[1..], sep, t);
      assert [p[0]] + p[1..] == p;
    }
  }

  /** Splitting a join of separator-free pieces gives the pieces back, so
      Split and Join are inverse bijections. */
  lemma {:induction false} SplitJoin(parts: seq<string>, sep: char)
    requires |parts| >= 1
    requires forall k :: 0 <= k < |parts| ==> sep !in parts[k]
    ensures Split(Join(parts, sep), sep) == parts
    decreases |parts|
  {
    if |parts| == 1 {
      SplitWithoutSeparator(parts[0], sep);
    } else {
      SplitJoin(parts[1..], sep);
      SplitAfterSeparator(parts[0], sep, Join(parts[1..], sep));
      assert [parts[0]] + parts[1..] == parts;
    }
  }

  /** The default EVENTS value watches exactly `start` and `stop`. */
  lemma DefaultEvents()
    ensures Split("start,stop", ',') == ["start", "stop"]
    ensures DefaultSettings().events == ["start", "stop"]
  {
    SplitJoin(["start", "stop"], ',');
    assert Join(["start", "stop"], ',') == "start,stop";
  }

  /** No trimming: with EVENTS set to "start, stop" the second watched action
      is " stop", so `stop` is not watched. */
  lemma UntrimmedEvents()
    ensures Split("start, stop", ',') == ["start", " stop"]
    ensures "stop" !in Split("start, stop", ',')
  {
    SplitJoin(["start", " stop"], ',');
    assert Join(["start", " stop"], ',') == "start, stop";
  }
}
