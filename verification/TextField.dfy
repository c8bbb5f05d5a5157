/** A single-line text field and the keys it answers to. */
module TextField {
  import opened Text
  import opened Arithmetic

  /** Two fields are the same paste target only when identity, text, cursor and
      selection all agree. */
  datatype Field = Field(identity: nat, text: string, cursor: nat, selectAll: bool)

  datatype FieldKey = Backspace | Delete | Left | Right | Home | End | SelectAll | Typed(text: string) | Other

  datatype Edit = Ignored | CursorMoved | Edited

  /** The text without its line breaks. */
  function OneLine(s: string): string {
    if s == "" then "" else if s[0] == '\r' || s[0] == '\n' then OneLine(s[1..]) else [s[0]] + OneLine(s[1..])
  }

  function Insert(f: Field, text: string): Field {
    var base := if f.selectAll then f.(text := "", cursor := 0, selectAll := false) else f;
    var at := Min(base.cursor, |base.text|);
    var line := OneLine(text);
    base.(text := base.text[..at] + line + base.text[at..], cursor := at + |line|)
  }

  /** What a key does to a field whose cursor is inside its text. */
  function Press(f: Field, key: FieldKey): (Field, Edit)
    requires f.cursor <= |f.text|
  {
    var emptied := f.(text := "", cursor := 0, selectAll := false);
    match key
    case Backspace =>
      (if f.selectAll then emptied
       else if f.cursor == 0 then f
       else f.(text := f.text[..f.cursor - 1] + f.text[f.cursor..], cursor := f.cursor - 1), Edited)
    case Delete =>
      (if f.selectAll then emptied
       else if f.cursor == |f.text| then f
       else f.(text := f.text[..f.cursor] + f.text[f.cursor + 1..]), Edited)
    case Left =>
      (f.(cursor := if f.selectAll || f.cursor == 0 then 0 else f.cursor - 1, selectAll := false), CursorMoved)
    case Right =>
      (f.(cursor := if f.selectAll || f.cursor == |f.text| then |f.text| else f.cursor + 1, selectAll := false),
       CursorMoved)
    case Home => (f.(cursor := 0, selectAll := false), CursorMoved)
    case End => (f.(cursor := |f.text|, selectAll := false), CursorMoved)
    case SelectAll => (f.(selectAll := f.text != ""), CursorMoved)
    case Typed(text) => (Insert(f, text), Edited)
    case Other => (f, Ignored)
  }

  /** No key takes the cursor out of the text, none that says so changes it, and none
      makes the field another one. */
  lemma {:induction false} PressKeepsCursor(f: Field, key: FieldKey)
    requires f.cursor <= |f.text|
    ensures var (g, edit) := Press(f, key);
      && g.cursor <= |g.text| && g.identity == f.identity
      && (edit == Ignored ==> g == f)
      && (edit != Edited ==> g.text == f.text)
  {
  }
}
