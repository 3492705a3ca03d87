// The form controller: the registry of mounted fields, serialization,
// validation of every field, and the `sending` lifecycle around `onSubmit`.

/** What `onSubmit` hands back: something with a `then`, or anything else. */
datatype SubmitReturn = Thenable | NotThenable

/** Which way a `submit` went. */
datatype SubmitOutcome = ValidationFailed | NotAPromise | Sending

/** How a call ends synchronously: it returns, or it throws an `Error` with this message. */
datatype Completion = Returned | Thrown(message: string)

/** The error the deferred timer throws when a name is registered twice. */
function UniqueNameError(name: string): string
{
  "Form name \"" + name + "\" must be unique"
}

/** The error `unregister` throws for a name that is not registered. */
function NotFoundError(name: string): string
{
  "Form name \"" + name + "\" not found"
}

/**
 * The form. `onSubmit` and `hasOnSend` are its props. `registry` is the
 * `components` dictionary, `sending` the state flag. The rest records what the
 * JavaScript runtime and the callbacks would see: `pending` counts the promises
 * returned by `onSubmit` that have not settled, `pendingErrors` the throws
 * queued with `setTimeout`, `submissions` every record passed to `onSubmit`,
 * and `onSendCalls` every argument passed to `onSend`.
 */
class Form<V(==)> {
  const onSubmit: FormValues<V> -> SubmitReturn
  const hasOnSend: bool

  var registry: map<string, FormField<V>>
  var sending: bool
  var pending: nat
  var pendingErrors: seq<string>
  var submissions: seq<FormValues<V>>
  var onSendCalls: seq<bool>

  /** Every slot holds a field of this form, filed under that field's own name. */
  ghost predicate RegistryValid()
    reads this`registry
  {
    forall n :: n in registry ==> registry[n].props.name == n && registry[n].form == this
  }

  /**
   * The flag is only up while a promise is outstanding; every `onSend(true)`
   * is matched by one `onSend(false)` except for the promises still
   * outstanding, and the last notification is the current flag.
   */
  ghost predicate LifecycleValid()
    reads this`sending, this`pending, this`onSendCalls
  {
    && (sending ==> pending > 0)
    && (hasOnSend ==> Count(onSendCalls, true) == Count(onSendCalls, false) + pending)
    && (hasOnSend && onSendCalls != [] ==> onSendCalls[|onSendCalls| - 1] == sending)
    && (hasOnSend && onSendCalls == [] ==> !sending)
    && (!hasOnSend ==> onSendCalls == [])
  }

  ghost predicate Valid()
    reads this`registry, this`sending, this`pending, this`onSendCalls
  {
    RegistryValid() && LifecycleValid()
  }

  /** The record `serialize` builds from the current state. */
  ghost function Values(): FormValues<V>
    reads this`registry, registry.Values`value
  {
    map n | n in registry :: registry[n].value
  }

  /** Every registered field's validator accepts its value against the current record. */
  ghost predicate AllPass()
    reads this`registry, registry.Values`value
  {
    forall n :: n in registry ==> registry[n].Outcome(Values()).Bool?
  }

  /** A form with no fields, not sending, and nothing reported yet. */
  constructor (onSubmit: FormValues<V> -> SubmitReturn, hasOnSend: bool)
    ensures Valid()
    ensures this.onSubmit == onSubmit && this.hasOnSend == hasOnSend
    ensures registry == map[] && !sending && pending == 0
    ensures pendingErrors == [] && submissions == [] && onSendCalls == []
  {
    this.onSubmit := onSubmit;
    this.hasOnSend := hasOnSend;
    registry := map[];
    sending := false;
    pending := 0;
    pendingErrors := [];
    submissions := [];
    onSendCalls := [];
  }

  /**
   * `register(component)`: the slot for the component's name always ends up
   * holding it and no other slot changes; a name already present queues one
   * deferred "must be unique" error instead of failing now.
   */
  method Register(c: FormField<V>)
    requires Valid() && c.form == this
    modifies this`registry, this`pendingErrors
    ensures Valid()
    ensures registry == old(registry)[c.props.name := c]
    ensures forall n :: n in old(registry) && n != c.props.name ==> n in registry && registry[n] == old(registry)[n]
    ensures pendingErrors
         == old(pendingErrors) + if c.props.name in old(registry) then [UniqueNameError(c.props.name)] else []
  {
    var name := c.props.name;
    if name in registry {
      pendingErrors := pendingErrors + [UniqueNameError(name)];
    }
    registry := registry[name := c];
  }

  /** The `setTimeout` callbacks fire: every queued error is thrown, in order, and the queue empties. */
  method FlushDeferred() returns (thrown: seq<string>)
    modifies this`pendingErrors
    ensures thrown == old(pendingErrors) && pendingErrors == []
  {
    thrown := pendingErrors;
    pendingErrors := [];
  }

  /**
   * `unregister(component)`: an unknown name throws at once and changes
   * nothing; a known name loses exactly its own slot.
   */
  method Unregister(c: FormField<V>) returns (r: Completion)
    requires Valid()
    modifies this`registry
    ensures Valid()
    ensures c.props.name !in old(registry) ==> r == Thrown(NotFoundError(c.props.name)) && registry == old(registry)
    ensures c.props.name in old(registry) ==> r == Returned && registry == old(registry) - {c.props.name}
    ensures registry.Keys == old(registry).Keys - {c.props.name}
    ensures forall n :: n in registry ==> registry[n] == old(registry)[n]
  {
    var name := c.props.name;
    if name !in registry {
      return Thrown(NotFoundError(name));
    }
    registry := registry - {name};
    r := Returned;
  }

  /** `setSending(flag)`: stores the flag and tells `onSend` when it is given. */
  method SetSending(s: bool)
    modifies this`sending, this`onSendCalls
    ensures sending == s
    ensures onSendCalls == old(onSendCalls) + if hasOnSend then [s] else []
  {
    sending := s;
    if hasOnSend {
      onSendCalls := onSendCalls + [s];
    }
  }

  /**
   * `serialize()`: one entry per registered name, holding that field's
   * `getValue()`; it changes nothing.
   */
  method Serialize() returns (data: FormValues<V>)
    requires RegistryValid()
    ensures data.Keys == registry.Keys
    ensures forall n :: n in data ==> data[n] == registry[n].value
    ensures data == Values()
  {
    data := map[];
    var rest := registry.Keys;
    while rest != {}
      invariant rest <= registry.Keys
      invariant data.Keys == registry.Keys - rest
      invariant forall n :: n in data ==> data[n] == registry[n].value
      decreases rest
    {
      var n :| n in rest;
      var component := registry[n];
      var v := component.GetValue();
      data := data[component.props.name := v];
      rest := rest - {n};
    }
  }

  /**
   * `validate()`: every registered field is validated, also after one fails,
   * so each field's `error` is refreshed against the current record; the
   * result is true exactly when every field passed. Only `error` changes.
   */
  method Validate() returns (isValid: bool)
    requires RegistryValid()
    modifies registry.Values`error
    ensures Values() == old(Values())
    ensures isValid <==> old(AllPass())
    ensures forall n :: n in registry ==> registry[n].error == ErrorFor(old(registry[n].Outcome(Values())))
  {
    isValid := true;
    var rest := registry.Keys;
    while rest != {}
      invariant rest <= registry.Keys
      invariant Values() == old(Values())
      invariant forall n :: n in registry.Keys - rest ==> registry[n].error == ErrorFor(old(registry[n].Outcome(Values())))
      invariant isValid <==> forall n :: n in registry.Keys - rest ==> old(registry[n].Outcome(Values())).Bool?
      decreases rest
    {
      var n :| n in rest;
      var component := registry[n];
      var ok := component.Validate();
      if !ok {
        isValid := false;
      }
      rest := rest - {n};
    }
  }

  /**
   * `submit()`: validation first; a failure stops there. Otherwise the record
   * goes to `onSubmit`; a result without `then` stops there; a promise raises
   * `sending` (telling `onSend`) and waits for `Settle`. Field values never
   * change, and every field's `error` is refreshed.
   */
  method Submit() returns (outcome: SubmitOutcome)
    requires Valid()
    modifies this`sending, this`pending, this`submissions, this`onSendCalls, registry.Values`error
    ensures Valid()
    ensures registry == old(registry)
    ensures forall n :: n in registry ==> registry[n].value == old(registry[n].value)
    ensures forall n :: n in registry ==> registry[n].error == ErrorFor(old(registry[n].Outcome(Values())))
    ensures !old(AllPass()) ==>
              && outcome == ValidationFailed
              && submissions == old(submissions)
              && sending == old(sending) && pending == old(pending) && onSendCalls == old(onSendCalls)
    ensures old(AllPass()) ==>
              && submissions == old(submissions) + [old(Values())]
              && (onSubmit(old(Values())).NotThenable? ==>
                    && outcome == NotAPromise
                    && sending == old(sending) && pending == old(pending) && onSendCalls == old(onSendCalls))
              && (onSubmit(old(Values())).Thenable? ==>
                    && outcome == Sending
                    && sending && pending == old(pending) + 1
                    && onSendCalls == old(onSendCalls) + if hasOnSend then [true] else [])
  {
    var ok := Validate();
    if !ok {
      return ValidationFailed;
    }
    outcome := Dispatch();
  }

  /**
   * The part of `submit()` after validation passed: serialize, hand the
   * record to `onSubmit`, and raise `sending` when a promise came back.
   */
  method Dispatch() returns (outcome: SubmitOutcome)
    requires Valid()
    modifies this`sending, this`pending, this`submissions, this`onSendCalls
    ensures Valid()
    ensures submissions == old(submissions) + [old(Values())]
    ensures onSubmit(old(Values())).NotThenable? ==>
              && outcome == NotAPromise
              && sending == old(sending) && pending == old(pending) && onSendCalls == old(onSendCalls)
    ensures onSubmit(old(Values())).Thenable? ==>
              && outcome == Sending
              && sending && pending == old(pending) + 1
              && onSendCalls == old(onSendCalls) + if hasOnSend then [true] else []
  {
    var formData := Serialize();
    submissions := submissions + [formData];
    var promise := onSubmit(formData);
    if promise.NotThenable? {
      return NotAPromise;
    }
    CountSnoc(onSendCalls, true, true);
    CountSnoc(onSendCalls, true, false);
    SetSending(true);
    pending := pending + 1;
    outcome := Sending;
  }

  /**
   * An outstanding promise settles. Fulfilled or rejected, the flag drops and
   * `onSend(false)` is called once; the rejection reason goes nowhere.
   */
  method Settle(fulfilled: bool)
    requires Valid() && pending > 0
    modifies this`sending, this`pending, this`onSendCalls
    ensures Valid()
    ensures !sending && pending == old(pending) - 1
    ensures onSendCalls == old(onSendCalls) + if hasOnSend then [false] else []
  {
    CountSnoc(onSendCalls, false, true);
    CountSnoc(onSendCalls, false, false);
    SetSending(false);
    pending := pending - 1;
  }

  /** The native `onSubmit` event handler delegates to `submit()`. */
  method OnSubmitEvent() returns (outcome: SubmitOutcome)
    requires Valid()
    modifies this`sending, this`pending, this`submissions, this`onSendCalls, registry.Values`error
    ensures Valid()
    ensures registry == old(registry)
    ensures forall n :: n in registry ==> registry[n].value == old(registry[n].value)
    ensures forall n :: n in registry ==> registry[n].error == ErrorFor(old(registry[n].Outcome(Values())))
    ensures !old(AllPass()) ==>
              && outcome == ValidationFailed
              && submissions == old(submissions)
              && sending == old(sending) && pending == old(pending) && onSendCalls == old(onSendCalls)
    ensures old(AllPass()) ==>
              && submissions == old(submissions) + [old(Values())]
              && (onSubmit(old(Values())).NotThenable? ==>
                    && outcome == NotAPromise
                    && sending == old(sending) && pending == old(pending) && onSendCalls == old(onSendCalls))
              && (onSubmit(old(Values())).Thenable? ==>
                    && outcome == Sending
                    && sending && pending == old(pending) + 1
                    && onSendCalls == old(onSendCalls) + if hasOnSend then [true] else [])
  {
    outcome := Submit();
  }
}
