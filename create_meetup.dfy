/** The three-step "create meetup" wizard: a step counter kept within 1..3,
    a form record that `handleInputChange` writes one field at a time, the
    Continue buttons' enabling conditions, and a submit that stores nothing. */
module CreateMeetup {

  /** A form value: the inputs write strings, the privacy switch a boolean. */
  datatype FormValue = Str(s: string) | Bool(b: bool)

  /** JavaScript truthiness of a form field; a field that is not there reads
      as `undefined`. */
  predicate FieldTruthy(form: map<string, FormValue>, field: string) {
    field in form &&
    match form[field]
    case Str(s) => s != ""
    case Bool(b) => b
  }

  const FirstStep: int := 1
  const LastStep: int := 3

  /** The form the wizard opens with. */
  function InitialForm(): (f: map<string, FormValue>)
    ensures f.Keys == {"title", "description", "date", "time", "location", "category", "maxAttendees", "isPrivate"}
    ensures forall k | k in f && k != "category" && k != "isPrivate" :: f[k] == Str("")
    ensures f["category"] == Str("social") && f["isPrivate"] == Bool(false)
  {
    map["title" := Str(""), "description" := Str(""), "date" := Str(""), "time" := Str(""),
        "location" := Str(""), "category" := Str("social"), "maxAttendees" := Str(""),
        "isPrivate" := Bool(false)]
  }

  /** `Math.min(step + 1, 3)`. */
  function NextStepOf(step: int): (r: int)
    ensures r <= LastStep
    ensures step < LastStep ==> r == step + 1
    ensures step >= LastStep ==> r == LastStep
  {
    if step + 1 < LastStep then step + 1 else LastStep
  }

  /** `Math.max(step - 1, 1)`. */
  function PrevStepOf(step: int): (r: int)
    ensures r >= FirstStep
    ensures step > FirstStep ==> r == step - 1
    ensures step <= FirstStep ==> r == FirstStep
  {
    if step - 1 > FirstStep then step - 1 else FirstStep
  }

  predicate InRange(step: int) {
    FirstStep <= step <= LastStep
  }

  /** Both moves keep a step in range, and each undoes the other away from
      the end it clamps at. */
  lemma StepMovesStayInRange(step: int)
    requires InRange(step)
    ensures InRange(NextStepOf(step)) && InRange(PrevStepOf(step))
    ensures step < LastStep ==> PrevStepOf(NextStepOf(step)) == step
    ensures step > FirstStep ==> NextStepOf(PrevStepOf(step)) == step
    ensures NextStepOf(LastStep) == LastStep && PrevStepOf(FirstStep) == FirstStep
  {
  }

  /** Continue on step 1 is enabled: a title and a description were typed
      (white space counts). */
  predicate CanLeaveDetails(form: map<string, FormValue>) {
    FieldTruthy(form, "title") && FieldTruthy(form, "description")
  }

  /** Continue on step 2 is enabled: date, time and location are filled;
      the attendee limit is optional. */
  predicate CanLeaveWhenWhere(form: map<string, FormValue>) {
    FieldTruthy(form, "date") && FieldTruthy(form, "time") && FieldTruthy(form, "location")
  }

  /** On the initial form neither Continue button is enabled, whatever is in
      the attendee field. */
  lemma InitialFormBlocksContinue(maxAttendees: string)
    ensures !CanLeaveDetails(InitialForm())
    ensures !CanLeaveWhenWhere(InitialForm()["maxAttendees" := Str(maxAttendees)])
  {
  }

  /** Step 1's button is enabled by any typed title and description, white
      space included: nothing is trimmed. */
  lemma DetailsGuard(form: map<string, FormValue>)
    ensures forall t, d :: CanLeaveDetails(form["title" := Str(t)]["description" := Str(d)]) <==> t != "" && d != ""
  {
  }

  /** Step 2's button ignores `maxAttendees`, and any typed date, time and
      location enable it. */
  lemma WhenWhereGuard(form: map<string, FormValue>, v: FormValue)
    ensures CanLeaveWhenWhere(form) <==> CanLeaveWhenWhere(form["maxAttendees" := v])
    ensures forall d, t, l :: CanLeaveWhenWhere(form["date" := Str(d)]["time" := Str(t)]["location" := Str(l)]) <==>
      d != "" && t != "" && l != ""
  {
  }

  class Wizard {
    var step: int
    var formData: map<string, FormValue>

    predicate Valid()
      reads this
    {
      InRange(step)
    }

    constructor ()
      ensures Valid() && step == FirstStep && formData == InitialForm()
    {
      step := FirstStep;
      formData := InitialForm();
    }

    /** Writes exactly the named field, adding it if the form lacks it. */
    method HandleInputChange(field: string, value: FormValue)
      requires Valid()
      modifies this`formData
      ensures Valid()
      ensures formData.Keys == old(formData.Keys) + {field}
      ensures formData[field] == value
      ensures forall k | k in old(formData) && k != field :: formData[k] == old(formData)[k]
    {
      formData := formData[field := value];
    }

    method NextStep()
      requires Valid()
      modifies this`step
      ensures Valid() && step == NextStepOf(old(step))
    {
      StepMovesStayInRange(step);
      step := NextStepOf(step);
    }

    method PrevStep()
      requires Valid()
      modifies this`step
      ensures Valid() && step == PrevStepOf(old(step))
    {
      StepMovesStayInRange(step);
      step := PrevStepOf(step);
    }

    /** The Continue button of the step on screen: a disabled button does
        nothing, and step 3 shows a submit button instead. */
    method Continue()
      requires Valid()
      modifies this`step
      ensures Valid()
      ensures old(step) == 1 && CanLeaveDetails(formData) ==> step == 2
      ensures old(step) == 2 && CanLeaveWhenWhere(formData) ==> step == 3
      ensures old(step) == 1 && !CanLeaveDetails(formData) ==> step == 1
      ensures old(step) == 2 && !CanLeaveWhenWhere(formData) ==> step == 2
      ensures old(step) == 3 ==> step == 3
    {
      if (step == 1 && CanLeaveDetails(formData)) || (step == 2 && CanLeaveWhenWhere(formData)) {
        NextStep();
      }
    }

    /** Stores nothing and returns the route it navigates to. */
    method Submit() returns (route: string)
      ensures route == "/meetups"
    {
      route := "/meetups";
    }
  }
}
