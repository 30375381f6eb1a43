/** MESSAGE_TEMPLATE and the `str.format(name=..., event=...)` call that
    fills it (listener.py:16, listener.py:97). The template is given already
    cut into segments. */
module MessageTemplate {
  import opened Optional

  /** A piece of a format string: literal text, the `{name}` or `{event}`
      placeholder, or a placeholder with any other field name. */
  datatype Segment = Literal(text: string) | NameField | EventField | OtherField(key: string)

  type Template = seq<Segment>

  /** "Container {name} {event}" */
  const DefaultTemplate: Template := [Literal("Container "), NameField, Literal(" "), EventField]

  /** One segment; an unknown field makes `format` raise KeyError (None). */
  function RenderSegment(seg: Segment, name: string, event: string): Option<string>
  {
    match seg
    case Literal(text) => Some(text)
    case NameField => Some(name)
    case EventField => Some(event)
    case OtherField(_) => None
  }

  /** The whole template, or None when `format` raises. */
  function Render(t: Template, name: string, event: string): Option<string>
    decreases |t|
  {
    if t == [] then Some("")
    else Concat(RenderSegment(t[0], name, event), Render(t[1..], name, event))
  }

  /** Two partial messages joined; a failure on either side is a failure. */
  function Concat(a: Option<string>, b: Option<string>): Option<string>
  {
    if a.Some? && b.Some? then Some(a.value + b.value) else None
  }

  /** Formatting fails exactly when the template names a field other than
      `name` and `event`. */
  lemma {:induction false} RenderSucceedsIff(t: Template, name: string, event: string)
    ensures Render(t, name, event).Some? <==> forall k :: 0 <= k < |t| ==> !t[k].OtherField?
    decreases |t|
  {
    if t != [] {
      RenderSucceedsIff(t[1..], name, event);
      assert forall k :: 1 <= k < |t| ==> t[k] == t[1..][k - 1];
    }
  }

  /** Formatting a concatenation of templates concatenates the messages. */
  lemma {:induction false} RenderConcat(t1: Template, t2: Template, name: string, event: string)
    ensures Render(t1 + t2, name, event) == Concat(Render(t1, name, event), Render(t2, name, event))
    decreases |t1|
  {
    if t1 == [] {
      assert t1 + t2 == t2;
      var r := Render(t2, name, event);
      assert r.Some? ==> "" + r.value == r.value;
    } else {
      assert (t1 + t2)[0] == t1[0] && (t1 + t2)[1..] == t1[1..] + t2;
      RenderConcat(t1[1..], t2, name, event);
      var h := RenderSegment(t1[0], name, event);
      var m1 := Render(t1[1..], name, event);
      var m2 := Render(t2, name, event);
      if h.Some? && m1.Some? && m2.Some? {
        assert h.value + (m1.value + m2.value) == (h.value + m1.value) + m2.value;
      }
    }
  }

  /** A placeholder's value appears verbatim: the default template with name
      "web1" and event "start" gives "Container web1 start". */
  lemma DefaultMessage()
    ensures Render(DefaultTemplate, "web1", "start") == Some("Container web1 start")
  {
    var t := DefaultTemplate;
    assert t[3..][1..] == [];
    assert "start" + "" == "start";
    assert Render(t[3..], "web1", "start") == Some("start");
    assert t[2..][1..] == t[3..];
    assert " " + "start" == " start";
    assert Render(t[2..], "web1", "start") == Some(" start");
    assert t[1..][1..] == t[2..];
    assert "web1" + " start" == "web1 start";
    assert Render(t[1..], "web1", "start") == Some("web1 start");
    assert "Container " + "web1 start" == "Container web1 start";
  }
}
