// The field controller that `withFormField` wraps around an input component.

/**
 * One mounted field: its props and merged configuration (fixed for the
 * instance), the form it belongs to, and the four state entries `value`,
 * `dirty`, `touched` and `error`. `changes` records the `onChange` calls it
 * makes; the ghost `history` records every value `setValue` was given.
 */
class FormField<V(==)> {
  const props: FieldProps<V>
  const config: Config<V>
  const form: Form<V>

  var value: JsValue<V>
  var dirty: bool
  var touched: bool
  var error: FieldError
  var changes: seq<(JsValue<V>, JsValue<V>)>
  ghost var history: seq<JsValue<V>>

  /** `props.value`, the external baseline `dirty` is measured against. */
  function Baseline(): JsValue<V>
  {
    Prop(props, "value")
  }

  /** `value` is the last value set (the initial value if none) and `dirty` is the fold of `setValue` over them. */
  ghost predicate Valid()
    reads this`value, this`dirty, this`history
  {
    && value == (if history == [] then InitialValue(props, config) else history[|history| - 1])
    && dirty == DirtyAfter(false, Baseline(), history)
  }

  /** The result the configured validator gives for the current value against the record `all`. */
  function Outcome(all: FormValues<V>): Validation
    reads this`value
  {
    config.validate(value, props, all)
  }

  /** The initial state: not dirty, no error, untouched, and the initial value. */
  constructor (props: FieldProps<V>, config: Config<V>, form: Form<V>)
    ensures Valid()
    ensures this.props == props && this.config == config && this.form == form
    ensures !dirty && error == Flag(false) && !touched
    ensures value == InitialValue(props, config)
    ensures changes == [] && history == []
  {
    this.props := props;
    this.config := config;
    this.form := form;
    dirty := false;
    error := Flag(false);
    touched := false;
    value := InitialValue(props, config);
    changes := [];
    history := [];
  }

  /** `componentDidMount`: register with the form; afterwards this field owns its name's slot. */
  method Mount()
    requires form.Valid()
    modifies form`registry, form`pendingErrors
    ensures form.Valid()
    ensures form.registry == old(form.registry)[props.name := this]
    ensures props.name in form.registry && form.registry[props.name] == this
    ensures form.pendingErrors
         == old(form.pendingErrors) + if props.name in old(form.registry) then [UniqueNameError(props.name)] else []
  {
    form.Register(this);
  }

  /** `componentWillUnmount`: unregister from the form by name. */
  method Unmount() returns (r: Completion)
    requires form.Valid()
    modifies form`registry
    ensures form.Valid()
    ensures props.name !in old(form.registry) ==> r == Thrown(NotFoundError(props.name)) && form.registry == old(form.registry)
    ensures props.name in old(form.registry) ==> r == Returned && form.registry == old(form.registry) - {props.name}
    ensures props.name !in form.registry
  {
    r := form.Unregister(this);
  }

  /**
   * `setValue(v)`: marks the field touched, stores `v`, takes one step of
   * `dirty`, and calls `onChange(v, props.value)` when `onChange` is a function.
   */
  method SetValue(v: JsValue<V>)
    requires Valid()
    modifies this`touched, this`value, this`dirty, this`history, this`changes
    ensures Valid()
    ensures touched && value == v
    ensures dirty == NextDirty(old(dirty), Baseline(), v)
    ensures history == old(history) + [v]
    ensures changes == old(changes) + if props.hasOnChange then [(v, Baseline())] else []
  {
    var prevValue := Baseline();
    SetTouched(true);
    DirtyAfterSnoc(false, prevValue, history, v);
    value, dirty := v, dirty || (!prevValue.Null? && v != prevValue);
    history := history + [v];
    if props.hasOnChange {
      changes := changes + [(v, prevValue)];
    }
  }

  /** `getValue()`: a plain read of the current value. */
  method GetValue() returns (v: JsValue<V>)
    ensures v == value
  {
    v := value;
  }

  /**
   * `validate()`: runs the validator on the value, the props and the form's
   * current record. A message becomes the `error` and fails the field; a
   * boolean, whichever it is, clears the `error` and passes it.
   */
  method Validate() returns (ok: bool)
    requires form.RegistryValid()
    modifies this`error
    ensures ok <==> old(Outcome(form.Values())).Bool?
    ensures error == ErrorFor(old(Outcome(form.Values())))
  {
    var all := form.Serialize();
    var validation := config.validate(value, props, all);
    if validation.Msg? {
      SetError(Text(validation.text));
      return false;
    }
    SetError(Flag(false));
    return true;
  }

  /** `setTouched(flag)`. */
  method SetTouched(t: bool)
    modifies this`touched
    ensures touched == t
  {
    touched := t;
  }

  /** `setError(error)`. */
  method SetError(e: FieldError)
    modifies this`error
    ensures error == e
  {
    error := e;
  }
}

/**
 * When the options leave out `validate`, whatever `key` and `defaultValue`
 * they give, a field always passes and its `error` is cleared.
 */
lemma DefaultValidatorPasses<V>(options: Options<V>, v: JsValue<V>, props: FieldProps<V>, all: FormValues<V>)
  requires options.validate.None?
  ensures MergeOptions(options).validate(v, props, all).Bool?
  ensures ErrorFor(MergeOptions(options).validate(v, props, all)) == Flag(false)
{
}
