// Two runs of the form written as client code: what a caller can conclude
// from the contracts of Form and FormField alone.

/** The values the example fields hold: text or a number. */
datatype Scalar = Str(s: string) | Num(n: int)

/** The example validator: an empty `email` is refused, everything else passes. */
function RequireEmail(v: JsValue<Scalar>, props: FieldProps<Scalar>, all: FormValues<Scalar>): Validation
{
  if props.name == "email" && v == Val(Str("")) then Msg("Email is required") else Bool(true)
}

/** `onSubmit` that always returns a promise. */
function AlwaysPromise(data: FormValues<Scalar>): SubmitReturn
{
  Thenable
}

/** A form with a mounted `email` field holding `address` and a mounted `age` field holding 0. */
method EmailAgeForm(address: string) returns (form: Form<Scalar>, email: FormField<Scalar>, age: FormField<Scalar>)
  ensures fresh(form) && fresh(email) && fresh(age)
  ensures form.Valid() && form.hasOnSend && form.onSubmit == AlwaysPromise
  ensures form.registry == map["email" := email, "age" := age]
  ensures !form.sending && form.pending == 0 && form.submissions == [] && form.onSendCalls == []
  ensures email.config.validate == RequireEmail && age.config.validate == RequireEmail
  ensures email.value == Val(Str(address)) && age.value == Val(Num(0))
  ensures email.props.name == "email" && age.props.name == "age"
{
  var config := MergeOptions(Options(None, None, Some(RequireEmail)));
  form := new Form(AlwaysPromise, true);
  email := new FormField(FieldProps("email", map["value" := Val(Str(address))], false), config, form);
  age := new FormField(FieldProps("age", map["value" := Val(Num(0))], false), config, form);
  email.Mount();
  age.Mount();
}

/** What the validator says about each field of such a form, and whether they all pass. */
lemma EmailAgeOutcomes(form: Form<Scalar>, email: FormField<Scalar>, age: FormField<Scalar>, address: string)
  requires form.registry == map["email" := email, "age" := age]
  requires email.config.validate == RequireEmail && age.config.validate == RequireEmail
  requires email.value == Val(Str(address)) && age.value == Val(Num(0))
  requires email.props.name == "email" && age.props.name == "age"
  ensures form.Values() == map["email" := Val(Str(address)), "age" := Val(Num(0))]
  ensures email.Outcome(form.Values()) == if address == "" then Msg("Email is required") else Bool(true)
  ensures age.Outcome(form.Values()) == Bool(true)
  ensures form.AllPass() <==> address != ""
{
  var record := map["email" := Val(Str(address)), "age" := Val(Num(0))];
  assert form.Values() == record by {
    assert form.Values().Keys == record.Keys;
  }
  if address == "" {
    assert !form.registry["email"].Outcome(form.Values()).Bool?;
  } else {
    forall n | n in form.registry
      ensures form.registry[n].Outcome(form.Values()).Bool?
    {
      assert n == "email" || n == "age";
    }
  }
}

/**
 * `email` empty and `age` 0: submit stops at validation, only
 * `email` is in error, `onSubmit` is not called and `sending` stays down.
 */
method RejectedSubmitScenario()
{
  var form, email, age := EmailAgeForm("");
  EmailAgeOutcomes(form, email, age, "");
  var outcome := form.Submit();
  assert outcome == ValidationFailed;
  assert form.registry["email"] == email && form.registry["age"] == age;
  assert email.error == Text("Email is required") && age.error == Flag(false);
  assert form.submissions == [] && !form.sending && form.onSendCalls == [];
}

/**
 * `email` filled in: the submit event sends `{email, age}`, raises `sending`
 * and tells `onSend`.
 */
method AcceptedSubmitScenario()
{
  var form, email, age := EmailAgeForm("a@b.com");
  EmailAgeOutcomes(form, email, age, "a@b.com");
  var outcome := form.OnSubmitEvent();
  assert outcome == Sending;
  assert form.registry["email"] == email && form.registry["age"] == age;
  assert email.error == Flag(false) && age.error == Flag(false);
  assert form.submissions == [map["email" := Val(Str("a@b.com")), "age" := Val(Num(0))]];
  assert form.sending && form.onSendCalls == [true];
}

/**
 * A form with no fields always passes validation and sends `{}`; once the
 * promise settles, rejected here, the flag drops and `onSend` hears of it.
 */
method SettleScenario()
{
  var form := new Form(AlwaysPromise, true);
  assert form.AllPass();
  var outcome := form.Submit();
  assert outcome == Sending && form.sending && form.onSendCalls == [true];
  assert form.submissions == [map[]];

  form.Settle(false);
  assert !form.sending && form.pending == 0 && form.onSendCalls == [true, false];
}

/** Setting a value different from the `value` prop marks the field touched and dirty. */
method EditScenario()
{
  var form := new Form(AlwaysPromise, false);
  var field := new FormField(FieldProps("email", map["value" := Val(Str(""))], true), MergeOptions(Options(None, None, None)), form);
  assert !field.dirty && !field.touched;
  field.SetValue(Val(Str("a@b.com")));
  assert field.dirty && field.touched && field.value == Val(Str("a@b.com"));
  assert field.changes == [(Val(Str("a@b.com")), Val(Str("")))];
  field.SetValue(Val(Str("")));
  assert field.dirty;
}

/**
 * Two fields named `x`: the second registration takes the slot and queues one
 * deferred error; unmounting the first field then removes the second one's
 * slot, and unmounting the second throws "not found".
 */
method DuplicateNameScenario()
{
  var form := new Form(AlwaysPromise, false);
  var config := MergeOptions(Options(None, None, None));
  var first := new FormField(FieldProps("x", map[], false), config, form);
  var second := new FormField(FieldProps("x", map[], false), config, form);
  assert first.value == Null;

  first.Mount();
  second.Mount();
  assert form.registry == map["x" := second];
  assert form.pendingErrors == [UniqueNameError("x")];

  var r := first.Unmount();
  assert r == Returned && form.registry == map[];
  r := second.Unmount();
  assert r == Thrown(NotFoundError("x"));

  var thrown := form.FlushDeferred();
  assert thrown == [UniqueNameError("x")];
}

/** `setSending` called directly, outside `submit`: the form still serializes and validates. */
method DirectSetSendingScenario()
{
  var form := new Form(AlwaysPromise, true);
  form.SetSending(true);
  var data := form.Serialize();
  assert data == map[];
  var ok := form.Validate();
  assert ok;
}
