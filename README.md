# Greeting screen with a name-input dialog

A model of a small kagura (Rust, WebAssembly) application: a greeting
"Hello <name> !" with a button that opens a modal dialog asking for a name.
The dialog is a child component with its own state (the draft text). It talks
to its parent only through outcomes (`Sub`): `Ok(draft)` when confirmed and
`Cancel` when dismissed. The application maps each outcome to one of its own
messages: `Ok(n)` becomes `SetName(n)` and `Cancel` becomes `CloseDialog`.

- `wrappers.dfy` — `Option`, standing for Rust's `Option`.
- `input_name_dialog.dfy` — module `InputNameDialog`: its messages
  (`InputName`, `Ok`, `Cancel`) and outcomes. `Step` is the pure
  specification of `update`. The class `Component` holds the draft that
  `Update` overwrites in place. The view is abstract: the text in the box, its input
  handler, and the message each button produces.
- `app.dfy` — module `App`: state `State(name, dialog)` and messages. `Next`
  is the pure specification of `update`, and the class `Component` is
  updated in place by `Update`. `Subscribe` is the outcome mapping. `Deliver`
  and `Dispatch` route one dialog message through the dialog, the mapping
  and the application. `Render` picks the branch and the greeting. Lemmas
  cover sequences of messages, and two client methods replay the confirm and
  cancel scenarios.

Each `update` that the source writes against `&mut State` is a class method
with `modifies this`. Its `ensures` ties the new state to the pure step
function applied to the old state. The properties are proved about those
step functions.

The code names the confirm path `Ok` in both the dialog's messages and its
outcomes; the model keeps the code's names.

## Model

| member | source | states |
|---|---|---|
| `InputNameDialog.Step` | src/lib.rs:153-162 | `InputName(n)` sets the draft to `n` and emits nothing; `Ok` emits `Ok(d)` of the current draft `d` and `Cancel` emits `Cancel`, both keeping the draft; only an edit is silent or changes the draft |
| `InputNameDialog.Component.constructor` | src/lib.rs:136-138 | `new()` gives a dialog whose draft is `NewDraft()`, the empty string |
| `InputNameDialog.Component.Update` | src/lib.rs:153-162 | `InputName(s)` sets the draft to `s` and emits nothing; `Ok` emits `Ok(draft)` and `Cancel` emits `Cancel`, both leaving the draft unchanged |
| `InputNameDialog.Render` | src/lib.rs:164-211 | the box shows the draft; typing text makes it the new draft and emits nothing; the Ok button emits `Ok` of exactly the text shown; the Cancel button emits `Cancel` |
| `InputNameDialog.TypedTextIsShown` | src/lib.rs:181-185 | after typing `v` through the box's input handler, the box shows `v` (controlled input) |
| `InputNameDialog.RunIsLastTyped` | src/lib.rs:155-158 | after any sequence of dialog messages the draft is the text of the last edit, or the starting draft if there was none |
| `App.Next` | src/lib.rs:39-51 | `SetName(n)` makes the name `n` and every other message keeps it; afterwards the overlay is open exactly when the message was `ShowInputNameDialog` |
| `App.Component.constructor` | src/lib.rs:19-24 | `init` gives `name == ""` and `dialog == None` |
| `App.Component.Update` | src/lib.rs:39-51 | the new state is `Next` of the old one, and the result is always `None` |
| `App.Subscribe` | src/lib.rs:94-98 | no outcome maps to `ShowInputNameDialog` |
| `App.SubscribeRoundTrip` | src/lib.rs:94-98 | the mapping is lossless: `Ok(n)` and `Cancel` are recovered from `SetName(n)` and `CloseDialog` |
| `App.UnsubscribeRoundTrip` | src/lib.rs:94-98 | every message other than `ShowInputNameDialog` is the image of exactly one outcome, so the mapping is a bijection onto `SetName`/`CloseDialog` |
| `App.Deliver` | src/lib.rs:94-98 | end to end: `Ok` with draft `d` gives `name == d` and `dialog == None`; `Cancel` keeps the name and gives `dialog == None`; an edit leaves the application state unchanged |
| `App.Dispatch` | src/lib.rs:94-98 | applying a dialog message and then the mapped outcome to the two objects gives exactly `Deliver` of their old states |
| `App.RunName` | src/lib.rs:41-48 | after any message sequence the name is the one carried by the last `SetName`, or the original if there is none |
| `App.RunDialog` | src/lib.rs:41-48 | after a non-empty message sequence the overlay is open exactly when the last message was `ShowInputNameDialog` |
| `App.ClosedAfterCloseOrConfirm` | src/lib.rs:41-48 | after any history, `CloseDialog` leaves `dialog == None`, and a mapped `Ok(n)` gives `name == n` with `dialog == None` |
| `App.CloseDialogIdempotent` | src/lib.rs:48 | after any history, `CloseDialog` twice gives the same state as `CloseDialog` once |
| `App.DeliverAllDraft` | src/lib.rs:153-162 | routing dialog messages through the application leaves the draft where the dialog alone would leave it |
| `App.NameKeptWithoutOk` | src/lib.rs:94-98 | dialog messages without a confirmation never change the greeted name |
| `App.ConfirmGreetsLastTyped` | src/lib.rs:94-98 | confirming after any dialog interaction greets exactly the last text typed and closes the overlay |
| `App.CancelKeepsName` | src/lib.rs:94-98 | cancelling after edits (with no confirmation) closes the overlay and keeps the earlier name |
| `App.RenderContent` | src/lib.rs:106-129 | the heading greets exactly the current name (it is `"Hello " + name + " !"`); the button produces the message that opens the overlay and changes nothing else |
| `App.Render` | src/lib.rs:53-104 | a dialog is embedded exactly when `dialog == InputName`, and it is a `new()` dialog whose draft is `NewDraft()` (empty); both branches show the same content, whose heading greets exactly the current name and whose button produces `ShowInputNameDialog` |
| `App.GreetingInjective` | src/lib.rs:115 | two different names never give the same heading |
| `App.ConfirmScenario` | src/lib.rs:94-98 | open, type `t`, press Ok: opening renders an overlay embedding a dialog with an empty draft, and the result is `name == t` with the overlay closed |
| `App.CancelScenario` | src/lib.rs:94-98 | greet `n`, open, type `t`, press Cancel: the name is still `n` and the overlay is closed; reopening renders an overlay whose embedded dialog has an empty draft |

## Left out

- The entry point `main` and `kagura::run` (src/lib.rs:9-12): the platform bootstrap and the event loop of a foreign runtime.
- The concrete `Html`, `Attributes` and `Events` trees (src/lib.rs:60-129, 164-211). CSS classes, styles, the `id`, the dialog's title text and `unsafe_text` are not modelled. Only the branch choice, the greeting text and the message each control produces are kept.
- How kagura keeps or recreates a child instance across renders, and its DOM diffing. The kagura library is not part of this model. `Render` records only that the embedded dialog is a `new()` one with an empty draft. The scenario methods send dialog messages to a dialog object they create with the constructor after opening the overlay; that this object is the instance the runtime mounts is not shown by the source and is not proved. Their claims about a freshly opened dialog come from `Render`, not from that object.
- App.Deliver: delivers dialog messages whatever the overlay mode is, although in the program a dialog receives messages only while mounted; the sequence lemmas (`DeliverAll`, `ConfirmGreetsLastTyped`, `CancelKeepsName`, `NameKeptWithoutOk`) therefore range over more histories than can occur.
- Event-handler closures: each control is modelled by the message it produces, not as a runtime callback.
- String cloning and ownership: Rust's `clone()` is value copying here.
- `webpack.config.js`: build configuration, with no logic.
