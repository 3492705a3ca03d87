# exmg-react-form: the form and field controllers in Dafny

`exmg-react-form` coordinates the inputs of a React form. A `Form`
component keeps a registry of the mounted field components, keyed by
each field's `name`. From that registry it can:

- build the record of current values (`serialize`);
- validate every field (`validate`);
- on submit, hand the record to the `onSubmit` prop and hold a `sending`
  flag up while the returned promise is outstanding, calling the optional
  `onSend` prop on every change of the flag.

Each field is made by the `withFormField(options)` wrapper. It merges the
options over defaults, keeps `value`, `dirty`, `touched` and `error` as
state, registers itself with the form on mount and unregisters on unmount.

This project models that bookkeeping as two Dafny classes:

- `Form` (form.dfy) holds the registry as a `map<string, FormField<V>>`
  and the `sending` flag.
- `FormField` (form_field.dfy) holds the four state entries.

The shared value types and the pure rules are in values.dfy. These are:

- the `undefined`/`null` encoding `JsValue`;
- validator results;
- the option merge;
- the initial value;
- the `dirty` step and its fold over a run of `setValue` calls.

Both classes are generic in the field value type `V`, and `!==` is Dafny
inequality on `JsValue<V>`.

What the JavaScript runtime would do later, or outside the call, is
recorded in fields:

- `Form.pendingErrors`: the errors queued with `setTimeout`, thrown when
  `FlushDeferred` runs.
- `Form.pending`: the number of promises returned by `onSubmit` that have
  not settled yet. `Form.Settle` settles one of them.
- `Form.submissions`: every record passed to `onSubmit`.
- `Form.onSendCalls`: every argument passed to `onSend`.
- `FormField.changes`: every `onChange(value, prevValue)` call.

`Form.Valid()` states the invariants every operation keeps:

- every registry slot holds a field of this form, filed under that field's
  own name;
- `sending` is only up while a promise is outstanding;
- when `onSend` is given, the `onSend(true)` calls outnumber the
  `onSend(false)` calls by exactly the number of outstanding promises, and
  the last notification equals the current flag;
- when `onSend` is not given, nothing is reported.

`FormField.Valid()` ties the field's state to the ghost history of values
given to `setValue`: `value` is the last of them, and `dirty` is
`DirtyAfter` folded over them.

scenarios.dfy writes out six client runs:

- edits that mark a field touched and dirty;
- a submit that fails validation;
- a submit that sends;
- a promise that settles;
- a duplicated field name;
- a direct `setSending` call followed by `serialize` and `validate`.

Each scenario is proved from the contracts above alone.

Some behaviour of the source is kept as written:

- `submit` does not guard against a second submit while one is sending.
  `pending` counts every outstanding promise, and each settlement lowers
  the flag, even while others are still outstanding.
- A rejected promise is handled exactly like a fulfilled one. The
  rejection reason is dropped.
- `unregister` removes the slot by name, whichever component holds it. If
  a field whose name was taken over by a duplicate unmounts, the
  duplicate's slot is removed, and the duplicate's own unmount then throws
  "not found". `DuplicateNameScenario` shows this run.
- The `dirty` baseline is the `value` prop, not the previous state value.
  When no `value` prop is passed, the baseline is `undefined`, which is
  not `null`. The first `setValue` of anything else then marks the field
  dirty (`UndefinedBaselineDirties`).

## Model

| member | source | states |
|---|---|---|
| MergeOptions | src/FormField.tsx:33-42 | each option the caller gives wins; a missing one falls back to `defaultValue` null, `key` "value" and the always-`false` validator |
| InitialValue | src/FormField.tsx:51 | the initial value is the prop named by `config.key` when that prop is present and not `undefined`, and `config.defaultValue` otherwise |
| FormField.constructor | src/FormField.tsx:47-52 | a new field is not dirty, has error `false`, is untouched, holds `InitialValue`, and its history is empty, so `Valid()` holds |
| DirtyAfterSnoc | src/FormField.tsx:75 | one more `setValue` extends the fold of `dirty` steps by exactly one step |
| DirtyAfterIff | src/FormField.tsx:75 | after any run of `setValue` calls, `dirty` holds iff it held before, or the baseline is not null and some value set differed from it; so it is monotone, and a null baseline never sets it |
| UndefinedBaselineDirties | src/FormField.tsx:69-75 | when the `value` prop is `undefined`, whether left out or passed as `undefined`, setting any value other than `undefined` marks a clean field dirty |
| FormField.SetValue | src/FormField.tsx:68-81 | marks the field touched; stores `v`; takes one `dirty` step against the `value` prop; calls `onChange(v, props.value)` exactly when `onChange` is a function; keeps `Valid()` |
| FormField.GetValue | src/FormField.tsx:83-85 | returns the current value |
| FormField.Validate | src/FormField.tsx:87-98 | runs the validator on the value, the props and the form's current record; returns true iff the result is a boolean; a message becomes the error, and a boolean of either value clears it |
| DefaultValidatorPasses | src/FormField.tsx:36-42 | for any options that leave out `validate`, whatever `key` and `defaultValue` they set, every validation result is a boolean, so `validate` takes its passing branch (lines 96-97): the field passes and its error is cleared |
| FormField.SetTouched | src/FormField.tsx:100-102 | `touched` becomes the given flag |
| FormField.SetError | src/FormField.tsx:104-108 | `error` becomes the given value |
| FormField.Mount | src/FormField.tsx:56-60 | after mounting, the field owns its name's slot; the rest of the registry is unchanged; a taken name queues one "must be unique" error |
| FormField.Unmount | src/FormField.tsx:62-66 | an unregistered name throws "not found" and changes nothing; a registered name loses exactly its slot; either way the name is then absent |
| Form.constructor | src/Form.tsx:32-38 | a new form has an empty registry, is not sending, and has nothing queued or reported |
| Form.Register | src/Form.tsx:46-57 | the component's name maps to the component; every other slot is unchanged; a name already present queues exactly one deferred "must be unique" error and does not fail the call; the invariants are kept |
| Form.FlushDeferred | src/Form.tsx:51-53 | the queued errors are thrown in order, and the queue empties |
| Form.Unregister | src/Form.tsx:59-67 | an absent name throws "not found" and leaves the registry unchanged; a present name removes exactly that key and leaves every other entry intact |
| Form.SetSending | src/Form.tsx:105-115 | stores the flag, and calls `onSend` with it exactly when `onSend` is given |
| Form.Serialize | src/Form.tsx:117-125 | the record's keys are the registry's keys; each entry is that field's value; nothing changes |
| Form.Validate | src/Form.tsx:127-137 | every registered field's error is refreshed against the record, also after a failure; returns true iff every field passes; no value changes |
| Form.Submit | src/Form.tsx:79-103 | failed validation leaves `onSubmit` uncalled and the flag and `onSend` untouched; otherwise the record goes to `onSubmit`; a result without `then` leaves the flag alone; a promise raises the flag, calls `onSend(true)` and adds one outstanding promise; field values never change; the invariants are kept |
| Form.Dispatch | src/Form.tsx:85-102 | once validation passed: the current record goes to `onSubmit`, and the flag rises, with `onSend(true)`, exactly when a promise came back |
| Form.Settle | src/Form.tsx:95-102 | a settling promise, fulfilled or rejected, lowers the flag and calls `onSend(false)` exactly once; the invariants are kept |
| Form.OnSubmitEvent | src/Form.tsx:69-74 | the native submit handler has every effect `submit` has: the same outcome in each of the three branches, the same submissions, flag, outstanding count and `onSend` log, refreshed errors and unchanged values |

## Left out

- Rendering and context plumbing are not modelled: `render`, `Context.Provider`, `FormConsumer`, `FormFieldWrapper`, `displayName` and the `withFormField` component wrapper. They are UI wiring. The option merge the wrapper performs is modelled (`MergeOptions`).
- `preventDefault` and `stopPropagation` in the submit handler are not modelled. They are DOM behaviour.
- The `console.log` and `console.warn` messages are not modelled. Only the control flow around them is.
- The `warn` option is never read, and the form's `errors` and `values` state is never used. None of them is modelled.
- `setTimeout` and promise scheduling are not modelled. They appear as the explicit steps `FlushDeferred` and `Settle`, which a caller may interleave with anything.
- React `setState` batching is not modelled. State writes take effect at once.
- JavaScript `!==` is modelled as Dafny inequality on `JsValue<V>`. Reference identity of objects and `NaN` are not distinguished.
- Form.Register: requires that the component belongs to this form. Its only caller, `componentDidMount`, passes the field to the form from its own `form` prop.
- Props are fixed for the life of each field and form (`FormField.props`, `Form.onSubmit`, `Form.hasOnSend`). A re-render that changes `name`, `value`, `onChange`, `onSubmit` or `onSend` is not modelled, although the source reads `this.props` afresh on every call. Two results depend on this:
  - `FormField.Valid()` folds `dirty` against one fixed `value` prop. A parent that passes each new value back would move the baseline between `setValue` calls.
  - `Form.RegistryValid()` files every field under its current `name`, and `Form.Serialize` relies on that for its key set. In the source, a mounted field whose `name` changes is serialized under the new name while `components` keeps the old key, and its `unregister` looks up the new name.
- Form.Submit, Form.Dispatch, Form.Validate, FormField.Validate: every callback is a total Dafny function or a log entry. Callbacks never throw and never call back into the form, and the answer of `onSubmit` depends only on the record it is given. The source makes none of these promises, with two consequences:
  - An `onSubmit` that returns a promise once and `undefined` the next time is not modelled.
  - A throwing validator would leave the later fields' errors as they were (src/Form.tsx:130-134). A throwing `onSend` inside `setSending(true)` would skip attaching the settlement handlers, so `sending` would never drop (src/Form.tsx:93-102, 113).
- Registry keys that collide with `Object.prototype` members, such as a field named `toString`, are not modelled. The registry is a plain map.
- A `key` option that names `name`, `form` or `onChange` is not modelled. Those props are kept apart from the value-carrying props in `FieldProps`.
- Options passed explicitly as `undefined` are not modelled. An option is either given (`Some`) or left out (`None`).
- The truthiness tests in `register` and `unregister` are modelled as key membership. A registered component is an object, which is always truthy.
