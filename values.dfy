// Values, configuration and the pure rules shared by the form and its fields.

/** A property that may be absent from a JavaScript object. */
datatype Option<T> = None | Some(value: T)

/** A JavaScript value as a field stores it: `undefined`, `null`, or a value of the field's type. */
datatype JsValue<V> = Undefined | Null | Val(v: V)

/** What a validator hands back: `true`/`false` (no message) or a message string. */
datatype Validation = Bool(b: bool) | Msg(text: string)

/** A field's `error` state, typed `string | boolean`. */
datatype FieldError = Flag(b: bool) | Text(text: string)

/** The aggregate record `serialize` builds: field name to current value. */
type FormValues<V> = map<string, JsValue<V>>

/**
 * The props a field component receives: its `name`, the value-carrying props
 * (`value` and any other key a configuration may name), and whether an
 * `onChange` function was passed.
 */
datatype FieldProps<V> = FieldProps(name: string, attrs: map<string, JsValue<V>>, hasOnChange: bool)

/** `validate(value, props, allValues)`. */
type Validator<!V> = (JsValue<V>, FieldProps<V>, FormValues<V>) -> Validation

/** The options passed to `withFormField`; `None` marks an option left out. */
datatype Options<!V> = Options(defaultValue: Option<JsValue<V>>, key: Option<string>, validate: Option<Validator<V>>)

/** The merged configuration a field class is built with: every option present. */
datatype Config<!V> = Config(defaultValue: JsValue<V>, key: string, validate: Validator<V>)

/** `props[key]`: a prop that was not passed reads as `undefined`. */
function Prop<V>(props: FieldProps<V>, key: string): JsValue<V>
{
  if key in props.attrs then props.attrs[key] else Undefined
}

/** The default validator: always `false`, which is not a message, so the field passes. */
function NeverInvalid<V>(value: JsValue<V>, props: FieldProps<V>, all: FormValues<V>): Validation
{
  Bool(false)
}

/** `{ ...defaults, ...options }`: an option the caller gave wins, otherwise the default. */
function MergeOptions<V>(options: Options<V>): (c: Config<V>)
  ensures options.defaultValue.Some? ==> c.defaultValue == options.defaultValue.value
  ensures options.defaultValue.None? ==> c.defaultValue.Null?
  ensures options.key.Some? ==> c.key == options.key.value
  ensures options.key.None? ==> c.key == "value"
  ensures options.validate.Some? ==> c.validate == options.validate.value
  ensures options.validate.None? ==> c.validate == NeverInvalid
{
  var defaults := Options(Some(Null), Some("value"), Some(NeverInvalid));
  var defaultValue := if options.defaultValue.Some? then options.defaultValue else defaults.defaultValue;
  var key := if options.key.Some? then options.key else defaults.key;
  var validate := if options.validate.Some? then options.validate else defaults.validate;
  Config(defaultValue.value, key.value, validate.value)
}

/** A field's initial `value`: the prop named by `config.key`, or the default when that prop is `undefined`. */
function InitialValue<V>(props: FieldProps<V>, config: Config<V>): (v: JsValue<V>)
  ensures config.key in props.attrs && !props.attrs[config.key].Undefined? ==> v == props.attrs[config.key]
  ensures (config.key !in props.attrs || props.attrs[config.key].Undefined?) ==> v == config.defaultValue
{
  var p := Prop(props, config.key);
  if p.Undefined? then config.defaultValue else p
}

/** The `error` a validation result leaves behind: the message, or `false`. */
function ErrorFor(r: Validation): FieldError
{
  match r
  case Msg(s) => Text(s)
  case Bool(_) => Flag(false)
}

/** One `setValue(v)` step of the `dirty` flag against the baseline `props.value`. */
function NextDirty<V(==)>(dirty: bool, baseline: JsValue<V>, v: JsValue<V>): bool
{
  dirty || (!baseline.Null? && v != baseline)
}

/** The `dirty` flag after the values `vs` were set one after the other. */
function DirtyAfter<V(==)>(dirty: bool, baseline: JsValue<V>, vs: seq<JsValue<V>>): bool
  decreases |vs|
{
  if vs == [] then dirty else DirtyAfter(NextDirty(dirty, baseline, vs[0]), baseline, vs[1..])
}

/** Setting one more value extends the fold by one step. */
lemma {:induction false} DirtyAfterSnoc<V>(dirty: bool, baseline: JsValue<V>, vs: seq<JsValue<V>>, v: JsValue<V>)
  ensures DirtyAfter(dirty, baseline, vs + [v]) == NextDirty(DirtyAfter(dirty, baseline, vs), baseline, v)
  decreases |vs|
{
  if vs == [] {
    assert [v][1..] == [];
  } else {
    assert (vs + [v])[1..] == vs[1..] + [v];
    DirtyAfterSnoc(NextDirty(dirty, baseline, vs[0]), baseline, vs[1..], v);
  }
}

/**
 * `dirty` is true after a run of `setValue` calls exactly when it was true
 * before, or the baseline is not `null` and some value set differed from it:
 * it never goes back to false, and a `null` baseline never sets it.
 */
lemma {:induction false} DirtyAfterIff<V>(dirty: bool, baseline: JsValue<V>, vs: seq<JsValue<V>>)
  ensures DirtyAfter(dirty, baseline, vs)
      <==> dirty || (!baseline.Null? && exists i :: 0 <= i < |vs| && vs[i] != baseline)
  decreases |vs|
{
  if vs != [] {
    DirtyAfterIff(NextDirty(dirty, baseline, vs[0]), baseline, vs[1..]);
    if !baseline.Null? && (exists i :: 0 <= i < |vs| && vs[i] != baseline) {
      var i :| 0 <= i < |vs| && vs[i] != baseline;
      if i > 0 {
        assert vs[1..][i - 1] != baseline;
      }
    }
    if !baseline.Null? && (exists j :: 0 <= j < |vs[1..]| && vs[1..][j] != baseline) {
      var j :| 0 <= j < |vs[1..]| && vs[1..][j] != baseline;
      assert vs[j + 1] != baseline;
    }
  }
}

/**
 * When the `value` prop is `undefined`, left out or passed as such, the
 * baseline is `undefined`, which is not `null`: then any value other than
 * `undefined` marks the field dirty, even one equal to the configured default.
 */
lemma UndefinedBaselineDirties<V>(props: FieldProps<V>, v: JsValue<V>)
  requires Prop(props, "value").Undefined?
  requires !v.Undefined?
  ensures NextDirty(false, Prop(props, "value"), v)
{
}

/** How many of the `onSend` notifications in `s` carried `b`. */
function Count(s: seq<bool>, b: bool): nat
  decreases |s|
{
  if s == [] then 0 else (if s[0] == b then 1 else 0) + Count(s[1..], b)
}

/** One more notification adds one to its own count and nothing to the other. */
lemma {:induction false} CountSnoc(s: seq<bool>, x: bool, b: bool)
  ensures Count(s + [x], b) == Count(s, b) + (if x == b then 1 else 0)
  decreases |s|
{
  if s == [] {
    assert [x][1..] == [];
  } else {
    assert (s + [x])[1..] == s[1..] + [x];
    CountSnoc(s[1..], x, b);
  }
}
