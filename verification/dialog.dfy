/** The "create container" dialog's form (`CreateDialogState`, src/main.rs:91-126) and the
    edits the dialog's keys make to it (src/main.rs:398-418): six text fields, one of which
    has the focus, cycled with Tab and Shift+Tab; typing appends to the focused field and
    Backspace removes its last character. */
module Dialog {

  /** Number of fields; focus moves modulo this. */
  const FieldCount: nat := 6

  /** The six fields, in focus order. */
  datatype Field = ImageName | ContainerName | Ports | EnvVars | Volumes | Command

  datatype Form = Form(selected: nat, imageName: string, containerName: string, ports: string,
                       envVars: string, volumes: string, command: string)

  /** `CreateDialogState::new()`: focus on the image name, every field empty. */
  function Empty(): (d: Form)
    ensures d.selected == 0
    ensures forall f :: Get(d, f) == ""
  {
    Form(0, "", "", "", "", "", "")
  }

  /** Position of a field in focus order. */
  function Index(f: Field): (i: nat)
    ensures i < FieldCount
  {
    match f
    case ImageName => 0
    case ContainerName => 1
    case Ports => 2
    case EnvVars => 3
    case Volumes => 4
    case Command => 5
  }

  /** `get_current_field_mut`: the field a focus index selects; an index outside the
      six positions falls back to the image name. */
  function Focused(selected: nat): (f: Field)
    ensures selected < FieldCount ==> Index(f) == selected
    ensures selected >= FieldCount ==> f == ImageName
  {
    if selected == 1 then ContainerName
    else if selected == 2 then Ports
    else if selected == 3 then EnvVars
    else if selected == 4 then Volumes
    else if selected == 5 then Command
    else ImageName
  }

  function Get(d: Form, f: Field): string
  {
    match f
    case ImageName => d.imageName
    case ContainerName => d.containerName
    case Ports => d.ports
    case EnvVars => d.envVars
    case Volumes => d.volumes
    case Command => d.command
  }

  /** Replacing one field: that field reads back as `v`, everything else is as it was. */
  function Set(d: Form, f: Field, v: string): (r: Form)
    ensures Get(r, f) == v
    ensures forall g :: g != f ==> Get(r, g) == Get(d, g)
    ensures r.selected == d.selected
  {
    match f
    case ImageName => d.(imageName := v)
    case ContainerName => d.(containerName := v)
    case Ports => d.(ports := v)
    case EnvVars => d.(envVars := v)
    case Volumes => d.(volumes := v)
    case Command => d.(command := v)
  }

  /** Two forms with the same text in every field. */
  predicate SameText(a: Form, b: Form) {
    forall f :: Get(a, f) == Get(b, f)
  }

  /** Tab: focus the next field, wrapping from the last to the first. */
  function FocusNext(d: Form): (r: Form)
    ensures r.selected < FieldCount
    ensures d.selected + 1 < FieldCount ==> r.selected == d.selected + 1
    ensures d.selected + 1 == FieldCount ==> r.selected == 0
    ensures SameText(r, d)
  {
    d.(selected := (d.selected + 1) % FieldCount)
  }

  /** Shift+Tab (`BackTab`): focus the previous field, wrapping from the first to the last. */
  function FocusPrevious(d: Form): (r: Form)
    ensures d.selected == 0 ==> r.selected == FieldCount - 1
    ensures d.selected > 0 ==> r.selected + 1 == d.selected
    ensures SameText(r, d)
  {
    d.(selected := if d.selected == 0 then FieldCount - 1 else d.selected - 1)
  }

  /** A printable key: append its character to the focused field. */
  function TypeChar(d: Form, c: char): (r: Form)
    ensures r.selected == d.selected
    ensures Get(r, Focused(d.selected)) == Get(d, Focused(d.selected)) + [c]
    ensures forall g :: g != Focused(d.selected) ==> Get(r, g) == Get(d, g)
  {
    var f := Focused(d.selected);
    Set(d, f, Get(d, f) + [c])
  }

  /** Backspace: `String::pop` on the focused field, which does nothing to an empty field. */
  function Backspace(d: Form): (r: Form)
    ensures r.selected == d.selected
    ensures Get(d, Focused(d.selected)) == "" ==> r == d
    ensures Get(d, Focused(d.selected)) != "" ==>
              Get(r, Focused(d.selected)) + [Get(d, Focused(d.selected))[|Get(d, Focused(d.selected))| - 1]]
                == Get(d, Focused(d.selected))
    ensures forall g :: g != Focused(d.selected) ==> Get(r, g) == Get(d, g)
  {
    var f := Focused(d.selected);
    var v := Get(d, f);
    if |v| == 0 then d else Set(d, f, v[..|v| - 1])
  }

  /** Backspace undoes the character just typed. */
  lemma BackspaceUndoesTypeChar(d: Form, c: char)
    ensures Backspace(TypeChar(d, c)) == d
  {
    var f := Focused(d.selected);
    var r := Backspace(TypeChar(d, c));
    assert Get(r, f) == Get(d, f);
    assert SameText(r, d);
  }

  /** Tab and Shift+Tab undo each other on every reachable focus. */
  lemma FocusMovesInverse(d: Form)
    requires d.selected < FieldCount
    ensures FocusPrevious(FocusNext(d)) == d
    ensures FocusNext(FocusPrevious(d)) == d
  {
  }

  /** The focus never leaves the six fields: it starts on the first and both moves keep it
      inside, so the image-name fallback of `Focused` is never needed. */
  lemma FocusStaysInRange(d: Form)
    requires d.selected < FieldCount
    ensures FocusNext(d).selected < FieldCount && FocusPrevious(d).selected < FieldCount
    ensures TypeChar(d, 'a').selected < FieldCount && Backspace(d).selected < FieldCount
  {
  }

  /** Typing a sequence of characters one key at a time. */
  function TypeText(d: Form, s: string): Form
    decreases |s|
  {
    if |s| == 0 then d else TypeText(TypeChar(d, s[0]), s[1..])
  }

  /** Typing a text appends exactly that text to the focused field and nothing else. */
  lemma {:induction false} TypeTextAppends(d: Form, s: string)
    ensures TypeText(d, s).selected == d.selected
    ensures Get(TypeText(d, s), Focused(d.selected)) == Get(d, Focused(d.selected)) + s
    ensures forall g :: g != Focused(d.selected) ==> Get(TypeText(d, s), g) == Get(d, g)
    decreases |s|
  {
    if |s| > 0 {
      var d' := TypeChar(d, s[0]);
      TypeTextAppends(d', s[1..]);
      assert Get(d, Focused(d.selected)) + [s[0]] + s[1..] == Get(d, Focused(d.selected)) + s;
    }
  }

  /** Six Tabs bring the focus back to the field it started on. */
  lemma FocusCycles(d: Form)
    requires d.selected < FieldCount
    ensures FocusNext(FocusNext(FocusNext(FocusNext(FocusNext(FocusNext(d)))))) == d
  {
  }
}
