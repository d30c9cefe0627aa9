/** The state of the audit form component: the three field values, their
    verdicts, and the two flags of the submission lifecycle. Each event handler
    is one atomic update of that state; the 2000 ms wait inside the submit
    handler is split into BeginSubmit and CompleteSubmit. */
module AuditForm {
  import opened FieldValidation

  datatype Field = Name | CompanyName | Email

  /** A record with one entry per field, the shape of both `formData` and `validation`. */
  datatype PerField<T> = PerField(name: T, companyName: T, email: T)
  {
    function Get(f: Field): T
    {
      match f
      case Name => name
      case CompanyName => companyName
      case Email => email
    }

    /** The record with field `f` replaced by `x` (the spread update `{...prev, [f]: x}`). */
    function With(f: Field, x: T): (r: PerField<T>)
      ensures r.Get(f) == x
      ensures forall g: Field | g != f :: r.Get(g) == Get(g)
    {
      match f
      case Name => this.(name := x)
      case CompanyName => this.(companyName := x)
      case Email => this.(email := x)
    }

    /** The entries in declaration order, as `Object.values` lists them. */
    function Values(): (vs: seq<T>)
      ensures |vs| == 3
      ensures forall f: Field :: Get(f) in vs
      ensures multiset(vs) == multiset{name, companyName, email}
      ensures vs[0] == name && vs[1] == companyName && vs[2] == email
    {
      [name, companyName, email]
    }
  }

  /** The verdict every field holds before its first edit. */
  const Unchecked := Verdict(false, "")

  /** The validator the change handler picks for a field. No field's verdict
      on empty text is valid. */
  function Validate(f: Field, value: string): (r: Verdict)
    ensures f == Name ==> (r.isValid <==> 2 <= |value| <= 50)
    ensures f == CompanyName ==> (r.isValid <==> 2 <= |value| <= 100)
    ensures f == Email ==> (r.isValid <==> MatchesEmailRegex(value))
    ensures value == [] ==> !r.isValid && r.message != ""
  {
    match f
    case Name => ValidateName(value)
    case CompanyName => ValidateCompanyName(value)
    case Email => ValidateEmail(value)
  }

  /** How many verdicts in `vs` are valid (the `filter(v => v.isValid).length`
      behind the progress bar). */
  function CountValid(vs: seq<Verdict>): (n: nat)
    ensures n <= |vs|
    ensures n == |vs| <==> forall k | 0 <= k < |vs| :: vs[k].isValid
  {
    if vs == [] then 0
    else (if vs[0].isValid then 1 else 0) + CountValid(vs[1..])
  }

  /** Counting distributes over concatenation, so the count of any list is
      the sum over its entries of 1 for a valid verdict and 0 otherwise. */
  lemma {:induction false} CountValidAppend(a: seq<Verdict>, b: seq<Verdict>)
    ensures CountValid(a + b) == CountValid(a) + CountValid(b)
  {
    if a == [] {
      assert a + b == b;
    } else {
      assert (a + b)[1..] == a[1..] + b;
      CountValidAppend(a[1..], b);
    }
  }

  /** A single verdict counts 1 when valid and 0 otherwise. */
  lemma CountValidSingle(v: Verdict)
    ensures CountValid([v]) == if v.isValid then 1 else 0
  {
    assert [v][1..] == [];
  }

  /** Overall validity: the conjunction of the three flags. */
  predicate AllValid(v: PerField<Verdict>)
  {
    v.name.isValid && v.companyName.isValid && v.email.isValid
  }

  /** The progress count lies in [0, 3] and reaches 3 exactly when the form is valid. */
  function ValidFieldCount(v: PerField<Verdict>): (n: nat)
    ensures n <= 3
    ensures n == 3 <==> AllValid(v)
    ensures n == 0 <==> !v.name.isValid && !v.companyName.isValid && !v.email.isValid
    ensures n == (if v.name.isValid then 1 else 0) + (if v.companyName.isValid then 1 else 0)
                 + (if v.email.isValid then 1 else 0)
  {
    var vs := v.Values();
    assert vs == [v.name] + [v.companyName] + [v.email];
    CountValidAppend([v.name] + [v.companyName], [v.email]);
    CountValidAppend([v.name], [v.companyName]);
    CountValidSingle(v.name);
    CountValidSingle(v.companyName);
    CountValidSingle(v.email);
    CountValid(vs)
  }

  /** Overall validity is the conjunction, for all eight combinations of
      valid and invalid fields. */
  lemma AllValidIffEachValid(v: PerField<Verdict>)
    ensures AllValid(v) <==> forall f: Field :: v.Get(f).isValid
  {
    assert v.Get(Name) == v.name && v.Get(CompanyName) == v.companyName && v.Get(Email) == v.email;
  }

  class Form {
    var formData: PerField<string>
    var validation: PerField<Verdict>
    var loading: bool
    var animationTriggered: bool
    /** Waits of 2000 ms begun by the submit handler and not yet completed:
        the event loop's outstanding timers, not state of the component. */
    ghost var pendingDelays: nat

    /** Each verdict is the validator's verdict on the field's value, or the
        field is untouched and still Unchecked; a submission in progress has
        a pending wait, and a pending wait has raised the animation flag. */
    ghost predicate Valid()
      reads this
    {
      && (forall f: Field :: Consistent(f, formData.Get(f), validation.Get(f)))
      && (loading ==> pendingDelays > 0)
      && (pendingDelays > 0 ==> animationTriggered)
    }

    static ghost predicate Consistent(f: Field, value: string, verdict: Verdict)
    {
      verdict == Validate(f, value) || (verdict == Unchecked && value == "")
    }

    constructor ()
      ensures Valid()
      ensures formData == PerField("", "", "")
      ensures validation == PerField(Unchecked, Unchecked, Unchecked)
      ensures !loading && !animationTriggered && pendingDelays == 0
      ensures !IsFormValid() && ValidFieldCount(validation) == 0
    {
      formData := PerField("", "", "");
      validation := PerField(Unchecked, Unchecked, Unchecked);
      loading := false;
      animationTriggered := false;
      pendingDelays := 0;
    }

    /** The form is valid exactly when all three current values pass their
        validators: a flag can be stale only while its field is still empty,
        and an empty field is invalid either way. */
    function IsFormValid(): (r: bool)
      reads this
      requires Valid()
      ensures r <==> AllValid(validation)
      ensures r <==> ValidFieldCount(validation) == 3
      ensures r <==> 2 <= |formData.name| <= 50 && 2 <= |formData.companyName| <= 100
                     && MatchesEmailRegex(formData.email)
    {
      assert Consistent(Name, formData.Get(Name), validation.Get(Name));
      assert Consistent(CompanyName, formData.Get(CompanyName), validation.Get(CompanyName));
      assert Consistent(Email, formData.Get(Email), validation.Get(Email));
      validation.name.isValid && validation.companyName.isValid && validation.email.isValid
    }

    /** The submit button is disabled while the form is invalid or a
        submission is in progress. */
    function ButtonDisabled(): (r: bool)
      reads this
      requires Valid()
      ensures r <==> loading || !(2 <= |formData.name| <= 50 && 2 <= |formData.companyName| <= 100
                                  && MatchesEmailRegex(formData.email))
      ensures !r <==> ValidFieldCount(validation) == 3 && !loading
    {
      !IsFormValid() || loading
    }

    /** The change handler: writes one field's value and recomputes that
        field's verdict only. */
    method InputChange(f: Field, value: string)
      requires Valid()
      modifies this
      ensures Valid()
      ensures formData == old(formData).With(f, value)
      ensures validation == old(validation).With(f, Validate(f, value))
      ensures forall g: Field | g != f ::
                formData.Get(g) == old(formData.Get(g)) && validation.Get(g) == old(validation.Get(g))
      ensures loading == old(loading) && animationTriggered == old(animationTriggered)
      ensures pendingDelays == old(pendingDelays)
    {
      formData := formData.With(f, value);
      validation := validation.With(f, Validate(f, value));
    }

    /** The submit handler up to its wait: with every field valid it raises
        both flags and starts a 2000 ms wait; otherwise it changes nothing. The
        handler itself does not look at `loading`. */
    method BeginSubmit()
      requires Valid()
      modifies this
      ensures Valid()
      ensures formData == old(formData) && validation == old(validation)
      ensures old(IsFormValid()) ==>
                loading && animationTriggered && pendingDelays == old(pendingDelays) + 1
      ensures !old(IsFormValid()) ==>
                loading == old(loading) && animationTriggered == old(animationTriggered)
                && pendingDelays == old(pendingDelays)
    {
      if validation.name.isValid && validation.companyName.isValid && validation.email.isValid {
        loading := true;
        animationTriggered := true;
        pendingDelays := pendingDelays + 1;
      }
    }

    /** One pending wait ends: `loading` is cleared, `animationTriggered` stays raised. */
    method CompleteSubmit()
      requires Valid()
      requires pendingDelays > 0
      modifies this
      ensures Valid()
      ensures formData == old(formData) && validation == old(validation)
      ensures !loading && animationTriggered
      ensures pendingDelays == old(pendingDelays) - 1
    {
      loading := false;
      pendingDelays := pendingDelays - 1;
    }

    /** A click on the submit button: a disabled button does nothing, an
        enabled one runs the submit handler, which then always starts a wait. */
    method PressSubmit()
      requires Valid()
      modifies this
      ensures Valid()
      ensures formData == old(formData) && validation == old(validation)
      ensures old(ButtonDisabled()) ==>
                loading == old(loading) && animationTriggered == old(animationTriggered)
                && pendingDelays == old(pendingDelays)
      ensures !old(ButtonDisabled()) ==>
                loading && animationTriggered && pendingDelays == old(pendingDelays) + 1
    {
      if !ButtonDisabled() {
        BeginSubmit();
      }
    }
  }

  /** A walk through the form: it starts invalid, three valid edits enable the
      button, a click starts exactly one submission, a second click while it
      runs does nothing, and the wait's end clears `loading` but not the
      animation flag. */
  method SubmitWalkthrough()
  {
    var form := new Form();
    assert form.ButtonDisabled();
    form.InputChange(Name, "Ada");
    form.InputChange(CompanyName, "Analytical Engines");
    MinimalEmailAccepted();
    form.InputChange(Email, "a@b.c");
    assert form.IsFormValid() && !form.ButtonDisabled();
    form.PressSubmit();
    assert form.loading && form.animationTriggered && form.pendingDelays == 1;
    form.PressSubmit();
    assert form.pendingDelays == 1;
    form.CompleteSubmit();
    assert !form.loading && form.animationTriggered && form.pendingDelays == 0;
  }
}
