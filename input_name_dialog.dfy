/**
  The name-input dialog: a child component whose whole state is the draft
  text typed so far. It never touches its parent's state; it only hands an
  outcome (`Sub`) upward, which the parent maps to one of its own messages.
 */
module InputNameDialog {
  import Wrappers

  /** Messages produced by the dialog's own controls. */
  datatype Msg = InputName(name: string) | Ok | Cancel

  /** Outcomes the dialog reports to its parent. */
  datatype Sub = Ok(name: string) | Cancel

  /** The effect of one `update` call: the new draft and the outcome emitted. */
  datatype Transition = Transition(draft: string, sub: Wrappers.Option<Sub>)

  /**
    What `update` does to draft `d` on message `m`; the specification of
    `Component.Update`. Only an edit is silent, and only an edit changes the
    draft; a confirmation copies the draft out verbatim.
   */
  function Step(d: string, m: Msg): (t: Transition)
    ensures t.sub.None? <==> m.InputName?
    ensures t.draft != d ==> m.InputName?
    ensures t.sub.Some? && t.sub.value.Ok? ==> m.Ok? && t.sub.value.name == d
    ensures m.InputName? ==> t.draft == m.name
    ensures m.Ok? ==> t == Transition(d, Wrappers.Some(Sub.Ok(d)))
    ensures m.Cancel? ==> t == Transition(d, Wrappers.Some(Sub.Cancel))
  {
    match m
    case InputName(n) => Transition(n, Wrappers.None)
    case Ok => Transition(d, Wrappers.Some(Sub.Ok(d)))
    case Cancel => Transition(d, Wrappers.Some(Sub.Cancel))
  }

  /** The draft a dialog created by `new()` starts with. */
  function NewDraft(): string
  {
    ""
  }

  /** A dialog instance: its state is the draft, owned by this object alone. */
  class Component {
    var draft: string

    /** `new()`: every dialog instance starts with the empty draft `NewDraft()`. */
    constructor ()
      ensures draft == NewDraft() && draft == ""
    {
      draft := NewDraft();
    }

    /** Applies one message in place and returns the outcome, if any. */
    method Update(m: Msg) returns (sub: Wrappers.Option<Sub>)
      modifies this
      ensures Transition(draft, sub) == Step(old(draft), m)
      ensures m.InputName? ==> draft == m.name && sub.None?
      ensures m.Ok? ==> draft == old(draft) && sub == Wrappers.Some(Sub.Ok(old(draft)))
      ensures m.Cancel? ==> draft == old(draft) && sub == Wrappers.Some(Sub.Cancel)
    {
      match m
      case InputName(n) =>
        draft := n;
        sub := Wrappers.None;
      case Ok =>
        sub := Wrappers.Some(Sub.Ok(draft));
      case Cancel =>
        sub := Wrappers.Some(Sub.Cancel);
    }
  }

  /**
    The dialog as rendered: a text box showing `inputValue`, whose input
    handler `onInput` turns typed text into a message, and two buttons
    producing the messages held here. Title, layout and styling are not
    modelled.
   */
  datatype View = View(inputValue: string, onInput: string -> Msg, cancelButton: Msg, okButton: Msg)

  /**
    `render`: the box shows the draft, typing text makes that text the new
    draft, the Ok button confirms exactly the text shown, and the Cancel
    button cancels; no control of the dialog leaves it silently except typing.
   */
  function Render(d: string): (v: View)
    ensures v.inputValue == d
    ensures forall text :: Step(d, v.onInput(text)) == Transition(text, Wrappers.None)
    ensures Step(d, v.okButton).sub == Wrappers.Some(Sub.Ok(v.inputValue))
    ensures Step(d, v.cancelButton).sub == Wrappers.Some(Sub.Cancel)
  {
    View(d, text => Msg.InputName(text), Msg.Cancel, Msg.Ok)
  }

  /** Controlled input: whatever is typed in the box is what the box shows next. */
  lemma TypedTextIsShown(d: string, text: string)
    ensures Render(Step(d, Render(d).onInput(text)).draft).inputValue == text
  {
  }

  /** The draft after a sequence of dialog messages, outcomes ignored. */
  function Run(d: string, ms: seq<Msg>): string
    decreases ms
  {
    if ms == [] then d else Run(Step(d, ms[0]).draft, ms[1..])
  }

  /** The text of the last edit in `ms`, or `d` when `ms` holds no edit. */
  function LastTyped(ms: seq<Msg>, d: string): string
  {
    if ms == [] then d
    else if ms[|ms| - 1].InputName? then ms[|ms| - 1].name
    else LastTyped(ms[..|ms| - 1], d)
  }

  lemma {:induction false} RunAppend(d: string, a: seq<Msg>, b: seq<Msg>)
    ensures Run(d, a + b) == Run(Run(d, a), b)
    decreases a
  {
    if a == [] {
      assert a + b == b;
    } else {
      assert (a + b)[0] == a[0];
      assert (a + b)[1..] == a[1..] + b;
      RunAppend(Step(d, a[0]).draft, a[1..], b);
    }
  }

  /** The draft is always the last text typed: no edit is lost or altered. */
  lemma {:induction false} RunIsLastTyped(d: string, ms: seq<Msg>)
    ensures Run(d, ms) == LastTyped(ms, d)
  {
    if ms != [] {
      var init, last := ms[..|ms| - 1], ms[|ms| - 1];
      assert ms == init + [last];
      RunAppend(d, init, [last]);
      RunIsLastTyped(d, init);
      assert Run(Run(d, init), [last]) == Step(Run(d, init), last).draft;
    }
  }
}
