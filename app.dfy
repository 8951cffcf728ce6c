/**
  The application (root) component: a greeting name and which overlay, if
  any, is open. It embeds the name-input dialog while the overlay is open and
  turns the dialog's outcomes into its own messages through `Subscribe`.
 */
module App {
  import Wrappers
  import InputNameDialog

  /** Which overlay is visible. */
  datatype Dialog = None | InputName

  /** Messages the application accepts. */
  datatype Msg = SetName(name: string) | ShowInputNameDialog | CloseDialog

  /** The application's outcome type; as the root it never emits one. */
  datatype Sub = Sub

  /** The application's state, as a value. */
  datatype State = State(name: string, dialog: Dialog)

  /** `init`: nobody greeted yet, no overlay. */
  function Init(): State
  {
    State("", None)
  }

  /**
    What `update` does to state `s` on message `m`; the specification of
    `Component.Update`. `SetName` replaces the name, and the overlay is open
    afterwards exactly when the message was `ShowInputNameDialog`.
   */
  function Next(s: State, m: Msg): (r: State)
    ensures r.name == (if m.SetName? then m.name else s.name)
    ensures r.dialog == InputName <==> m.ShowInputNameDialog?
  {
    match m
    case SetName(n) => State(n, if s.dialog == InputName then None else s.dialog)
    case ShowInputNameDialog => s.(dialog := InputName)
    case CloseDialog => s.(dialog := None)
  }

  /** The application's state, updated in place by `Update`. */
  class Component {
    var name: string
    var dialog: Dialog

    function Value(): State
      reads this
    {
      State(name, dialog)
    }

    /** `init`. */
    constructor ()
      ensures Value() == Init()
      ensures name == "" && dialog == None
    {
      name := "";
      dialog := None;
    }

    /** `update`: applies one message in place; the root never emits an outcome. */
    method Update(m: Msg) returns (sub: Wrappers.Option<Sub>)
      modifies this
      ensures Value() == Next(old(Value()), m)
      ensures sub == Wrappers.None
    {
      sub := Wrappers.None;
      match m
      case SetName(n) =>
        name := n;
        if dialog == InputName {
          dialog := None;
        }
      case ShowInputNameDialog =>
        dialog := InputName;
      case CloseDialog =>
        dialog := None;
    }
  }

  /**
    The mapping the application supplies when it embeds the dialog: a
    confirmed name becomes `SetName`, a cancel becomes `CloseDialog`. No
    outcome can reopen the overlay.
   */
  function Subscribe(sub: InputNameDialog.Sub): (m: Msg)
    ensures m != ShowInputNameDialog
  {
    match sub
    case Ok(n) => SetName(n)
    case Cancel => CloseDialog
  }

  /** The outcome a message came from, if it is one `Subscribe` produces. */
  function Unsubscribe(m: Msg): Wrappers.Option<InputNameDialog.Sub>
  {
    match m
    case SetName(n) => Wrappers.Some(InputNameDialog.Sub.Ok(n))
    case CloseDialog => Wrappers.Some(InputNameDialog.Sub.Cancel)
    case ShowInputNameDialog => Wrappers.None
  }

  /** `Subscribe` loses nothing: the outcome can be read back from the message. */
  lemma SubscribeRoundTrip(sub: InputNameDialog.Sub)
    ensures Unsubscribe(Subscribe(sub)) == Wrappers.Some(sub)
  {
  }

  /** Conversely, every message other than `ShowInputNameDialog` is the image of exactly one outcome. */
  lemma UnsubscribeRoundTrip(m: Msg)
    requires !m.ShowInputNameDialog?
    ensures Unsubscribe(m).Some? && Subscribe(Unsubscribe(m).value) == m
  {
  }

  /** The pair of states a dialog message acts on: the application's and the dialog's draft. */
  datatype Composed = Composed(app: State, draft: string)

  /**
    One dialog message delivered end to end: the dialog updates, and an
    outcome it emits is mapped by `Subscribe` and applied to the application.
    Confirming sets the name to the draft and closes the overlay; cancelling
    closes it and keeps the name; an edit leaves the application alone.
    Messages are delivered whatever the overlay mode is, although in the
    program a dialog receives messages only while it is mounted (overlay
    open); lemmas over sequences of `Deliver` therefore cover more histories
    than can actually occur.
   */
  function Deliver(s: State, d: string, m: InputNameDialog.Msg): (r: Composed)
    ensures m.InputName? ==> r == Composed(s, m.name)
    ensures m.Ok? ==> r == Composed(State(d, None), d)
    ensures m.Cancel? ==> r == Composed(State(s.name, None), d)
  {
    var t := InputNameDialog.Step(d, m);
    if t.sub.Some? then Composed(Next(s, Subscribe(t.sub.value)), t.draft)
    else Composed(s, t.draft)
  }

  /** Dispatch of a dialog message to the dialog and, through the mapping, to the application. */
  method Dispatch(app: Component, dialog: InputNameDialog.Component, m: InputNameDialog.Msg)
    modifies app, dialog
    ensures Composed(app.Value(), dialog.draft) == Deliver(old(app.Value()), old(dialog.draft), m)
  {
    var sub := dialog.Update(m);
    if sub.Some? {
      var _ := app.Update(Subscribe(sub.value));
    }
  }

  // ----- Sequences of application messages -----

  /** The state after applying `ms` in order. */
  function Run(s: State, ms: seq<Msg>): State
    decreases ms
  {
    if ms == [] then s else Run(Next(s, ms[0]), ms[1..])
  }

  /** The name carried by the last `SetName` in `ms`, or `n` when there is none. */
  function LastSetName(ms: seq<Msg>, n: string): string
  {
    if ms == [] then n
    else if ms[|ms| - 1].SetName? then ms[|ms| - 1].name
    else LastSetName(ms[..|ms| - 1], n)
  }

  lemma {:induction false} RunAppend(s: State, a: seq<Msg>, b: seq<Msg>)
    ensures Run(s, a + b) == Run(Run(s, a), b)
    decreases a
  {
    if a == [] {
      assert a + b == b;
    } else {
      assert (a + b)[0] == a[0];
      assert (a + b)[1..] == a[1..] + b;
      RunAppend(Next(s, a[0]), a[1..], b);
    }
  }

  lemma {:induction false} RunLast(s: State, ms: seq<Msg>)
    requires ms != []
    ensures Run(s, ms) == Next(Run(s, ms[..|ms| - 1]), ms[|ms| - 1])
  {
    var init, last := ms[..|ms| - 1], ms[|ms| - 1];
    assert ms == init + [last];
    RunAppend(s, init, [last]);
  }

  /** The greeted name is always the one set last; nothing else changes it. */
  lemma {:induction false} RunName(s: State, ms: seq<Msg>)
    ensures Run(s, ms).name == LastSetName(ms, s.name)
  {
    if ms != [] {
      RunLast(s, ms);
      RunName(s, ms[..|ms| - 1]);
    }
  }

  /** The overlay is open after a sequence exactly when its last message opened it. */
  lemma RunDialog(s: State, ms: seq<Msg>)
    requires ms != []
    ensures Run(s, ms).dialog == InputName <==> ms[|ms| - 1].ShowInputNameDialog?
  {
    RunLast(s, ms);
  }

  /** Whatever came before, `CloseDialog` or a mapped confirmation leaves no overlay open. */
  lemma ClosedAfterCloseOrConfirm(s: State, ms: seq<Msg>, n: string)
    ensures Run(s, ms + [CloseDialog]).dialog == None
    ensures Run(s, ms + [Subscribe(InputNameDialog.Sub.Ok(n))]) == State(n, None)
  {
    RunLast(s, ms + [CloseDialog]);
    assert (ms + [CloseDialog])[..|ms|] == ms;
    RunLast(s, ms + [SetName(n)]);
    assert (ms + [SetName(n)])[..|ms|] == ms;
  }

  /** Closing twice in a row is the same as closing once, after any history. */
  lemma CloseDialogIdempotent(s: State, ms: seq<Msg>)
    ensures Run(s, ms + [CloseDialog, CloseDialog]) == Run(s, ms + [CloseDialog])
  {
    RunAppend(s, ms, [CloseDialog, CloseDialog]);
    RunAppend(s, ms, [CloseDialog]);
  }

  // ----- Sequences of dialog messages, delivered end to end -----

  /** The composed state after delivering the dialog messages `ms` in order. */
  function DeliverAll(c: Composed, ms: seq<InputNameDialog.Msg>): Composed
    decreases ms
  {
    if ms == [] then c else DeliverAll(Deliver(c.app, c.draft, ms[0]), ms[1..])
  }

  /** Delivering messages end to end leaves the draft where the dialog alone would. */
  lemma {:induction false} DeliverAllDraft(c: Composed, ms: seq<InputNameDialog.Msg>)
    ensures DeliverAll(c, ms).draft == InputNameDialog.Run(c.draft, ms)
    decreases ms
  {
    if ms != [] {
      DeliverAllDraft(Deliver(c.app, c.draft, ms[0]), ms[1..]);
    }
  }

  lemma {:induction false} DeliverAllAppend(c: Composed, a: seq<InputNameDialog.Msg>, b: seq<InputNameDialog.Msg>)
    ensures DeliverAll(c, a + b) == DeliverAll(DeliverAll(c, a), b)
    decreases a
  {
    if a == [] {
      assert a + b == b;
    } else {
      assert (a + b)[0] == a[0];
      assert (a + b)[1..] == a[1..] + b;
      DeliverAllAppend(Deliver(c.app, c.draft, a[0]), a[1..], b);
    }
  }

  /** Without a confirmation the greeted name never changes, whatever is typed. */
  lemma {:induction false} NameKeptWithoutOk(c: Composed, ms: seq<InputNameDialog.Msg>)
    requires forall i :: 0 <= i < |ms| ==> !ms[i].Ok?
    ensures DeliverAll(c, ms).app.name == c.app.name
    decreases ms
  {
    if ms != [] {
      NameKeptWithoutOk(Deliver(c.app, c.draft, ms[0]), ms[1..]);
    }
  }

  /** Confirming after any interaction greets exactly the last text typed and closes the overlay. */
  lemma ConfirmGreetsLastTyped(c: Composed, ms: seq<InputNameDialog.Msg>)
    ensures DeliverAll(c, ms + [InputNameDialog.Msg.Ok]).app
         == State(InputNameDialog.LastTyped(ms, c.draft), None)
  {
    DeliverAllAppend(c, ms, [InputNameDialog.Msg.Ok]);
    DeliverAllDraft(c, ms);
    InputNameDialog.RunIsLastTyped(c.draft, ms);
  }

  /** Cancelling after edits closes the overlay and keeps the name from before. */
  lemma CancelKeepsName(c: Composed, ms: seq<InputNameDialog.Msg>)
    requires forall i :: 0 <= i < |ms| ==> !ms[i].Ok?
    ensures DeliverAll(c, ms + [InputNameDialog.Msg.Cancel]).app == State(c.app.name, None)
  {
    DeliverAllAppend(c, ms, [InputNameDialog.Msg.Cancel]);
    NameKeptWithoutOk(c, ms);
  }

  // ----- Rendering -----

  /** The greeting heading for `name`. */
  function Greeting(name: string): string
  {
    "Hello " + name + " !"
  }

  /** The name a heading greets, if it has the shape of a greeting. */
  function GreetedName(heading: string): Wrappers.Option<string>
  {
    if |heading| >= 8 && heading[..6] == "Hello " && heading[|heading| - 2..] == " !"
    then Wrappers.Some(heading[6..|heading| - 2])
    else Wrappers.None
  }

  /** The main content: the greeting heading and a button that produces `button`. */
  datatype Content = Content(heading: string, button: Msg)

  /**
    The rendered application: the content alone, or the content plus an
    overlay embedding a dialog instance created by `new()`, whose draft is
    `embeddedDraft`. The outcome mapping attached to it is `Subscribe`, which
    `Dispatch` applies; the view does not carry it.
   */
  datatype View = NoDialog(content: Content) | WithDialog(content: Content, embeddedDraft: string)

  /**
    `render_content`: the heading greets exactly the current name, and the
    button opens the name-input overlay.
   */
  function RenderContent(s: State): (c: Content)
    ensures GreetedName(c.heading) == Wrappers.Some(s.name)
    ensures Next(s, c.button) == s.(dialog := InputName)
  {
    var h := Greeting(s.name);
    assert h[..6] == "Hello " && h[|h| - 2..] == " !" && h[6..|h| - 2] == s.name;
    Content(h, ShowInputNameDialog)
  }

  /**
    `render`: the dialog is embedded exactly when the overlay is open, it is
    always a `new()` one, and the content is the same in both branches.
   */
  function Render(s: State): (v: View)
    ensures v.WithDialog? <==> s.dialog == InputName
    ensures v.WithDialog? ==> v.embeddedDraft == InputNameDialog.NewDraft() == ""
    ensures v.content == RenderContent(s)
    ensures GreetedName(v.content.heading) == Wrappers.Some(s.name)
    ensures v.content.button == ShowInputNameDialog
  {
    var c := RenderContent(s);
    match s.dialog
    case None => NoDialog(c)
    case InputName => WithDialog(c, InputNameDialog.NewDraft())
  }

  /** Two states with the same heading greet the same name. */
  lemma GreetingInjective(a: string, b: string)
    requires Greeting(a) == Greeting(b)
    ensures a == b
  {
    var ga, gb := Greeting(a), Greeting(b);
    assert ga[6..|ga| - 2] == a;
    assert gb[6..|gb| - 2] == b;
  }

  // ----- Scenarios, as a client drives the components -----

  /**
    Open the dialog, type `t`, press Ok: opening renders an overlay embedding
    a dialog with an empty draft, and afterwards the application greets `t`
    with the overlay closed.
   */
  method ConfirmScenario(t: string) returns (overlay: View, name: string, dialog: Dialog)
    ensures overlay.WithDialog? && overlay.embeddedDraft == ""
    ensures name == t && dialog == None
  {
    var app := new Component();
    var _ := app.Update(ShowInputNameDialog);
    overlay := Render(app.Value());
    var dlg := new InputNameDialog.Component();
    Dispatch(app, dlg, InputNameDialog.Msg.InputName(t));
    Dispatch(app, dlg, InputNameDialog.Msg.Ok);
    name, dialog := app.name, app.dialog;
  }

  /**
    Greet `n`, open the dialog, type `t`, press Cancel, open it again: the name
    is still `n`, the overlay closed on cancel, and the reopened overlay
    embeds a dialog whose draft is empty rather than `t`.
   */
  method CancelScenario(n: string, t: string) returns (name: string, closed: bool, reopened: View)
    ensures name == n && closed
    ensures reopened.WithDialog? && reopened.embeddedDraft == ""
  {
    var app := new Component();
    var _ := app.Update(SetName(n));
    var _ := app.Update(ShowInputNameDialog);
    var dlg := new InputNameDialog.Component();
    Dispatch(app, dlg, InputNameDialog.Msg.InputName(t));
    Dispatch(app, dlg, InputNameDialog.Msg.Cancel);
    name, closed := app.name, app.dialog == None;
    var _ := app.Update(ShowInputNameDialog);
    reopened := Render(app.Value());
  }
}
