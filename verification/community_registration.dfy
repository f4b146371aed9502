/** The three-step community registration wizard of
    src/components/CommunityRegistrationForm.tsx. Submitting the form on
    steps 1 and 2 moves to the next step; on step 3 it sends the whole form to
    the server and stays on step 3. A back button is shown from step 2 on.
    The form is edited one field at a time, and only the inputs of the
    current step are on screen.

    The browser fires the submit event only when the current step's
    `required` inputs are filled in and its e-mail input holds a valid
    address: the community's name, address, city, postal code and number of
    units on step 1, the administrator's name, e-mail and phone on step 2,
    and nothing on step 3. */
module CommunityRegistration {
  import opened Wrappers
  import opened Seqs
  import opened Api
  import opened Html

  /** The names `handleChange` is called with. */
  datatype Field =
    | CommunityName | Address | City | PostalCode | TotalUnits | CommunityType
    | AdminName | AdminEmail | AdminPhone | AdminPosition | Description | CurrentSoftware

  function Get(f: CommunityRequest, k: Field): string
  {
    match k
    case CommunityName => f.communityName
    case Address => f.address
    case City => f.city
    case PostalCode => f.postalCode
    case TotalUnits => f.totalUnits
    case CommunityType => f.communityType
    case AdminName => f.adminName
    case AdminEmail => f.adminEmail
    case AdminPhone => f.adminPhone
    case AdminPosition => f.adminPosition
    case Description => f.description
    case CurrentSoftware => f.currentSoftware
  }

  const EmptyForm := CommunityRequest("", "", "", "", "", "", "", "", "", "", "", "")

  /** `handleChange(field, value)`: the named field holds the new value and
      every other field keeps its old one. */
  function HandleChange(f: CommunityRequest, k: Field, v: string): (r: CommunityRequest)
    ensures Get(r, k) == v
    ensures forall k' :: k' != k ==> Get(r, k') == Get(f, k')
  {
    match k
    case CommunityName => f.(communityName := v)
    case Address => f.(address := v)
    case City => f.(city := v)
    case PostalCode => f.(postalCode := v)
    case TotalUnits => f.(totalUnits := v)
    case CommunityType => f.(communityType := v)
    case AdminName => f.(adminName := v)
    case AdminEmail => f.(adminEmail := v)
    case AdminPhone => f.(adminPhone := v)
    case AdminPosition => f.(adminPosition := v)
    case Description => f.(description := v)
    case CurrentSoftware => f.(currentSoftware := v)
  }

  /** A form is determined by its fields: two forms that agree on every
      field are the same form. */
  lemma FormExtensionality(f: CommunityRequest, g: CommunityRequest)
    requires forall k :: Get(f, k) == Get(g, k)
    ensures f == g
  {
    assert Get(f, CommunityName) == Get(g, CommunityName);
    assert Get(f, Address) == Get(g, Address);
    assert Get(f, City) == Get(g, City);
    assert Get(f, PostalCode) == Get(g, PostalCode);
    assert Get(f, TotalUnits) == Get(g, TotalUnits);
    assert Get(f, CommunityType) == Get(g, CommunityType);
    assert Get(f, AdminName) == Get(g, AdminName);
    assert Get(f, AdminEmail) == Get(g, AdminEmail);
    assert Get(f, AdminPhone) == Get(g, AdminPhone);
    assert Get(f, AdminPosition) == Get(g, AdminPosition);
    assert Get(f, Description) == Get(g, Description);
    assert Get(f, CurrentSoftware) == Get(g, CurrentSoftware);
  }

  /** Writing back a field's current value changes nothing. */
  lemma ChangeToSameValue(f: CommunityRequest, k: Field)
    ensures HandleChange(f, k, Get(f, k)) == f
  {
    FormExtensionality(HandleChange(f, k, Get(f, k)), f);
  }

  /** The step whose card holds the field's input. */
  function FieldStep(k: Field): int
  {
    match k
    case CommunityName | Address | City | PostalCode | TotalUnits | CommunityType => 1
    case AdminName | AdminEmail | AdminPhone | AdminPosition => 2
    case Description | CurrentSoftware => 3
  }

  /** The required inputs of step 1 are filled in. */
  predicate Step1Complete(f: CommunityRequest) {
    && !ValueMissing(f.communityName) && !ValueMissing(f.address) && !ValueMissing(f.city)
    && !ValueMissing(f.postalCode) && !ValueMissing(f.totalUnits)
  }

  /** The required inputs of step 2 are filled in, the e-mail with a valid
      address. */
  predicate Step2Complete(f: CommunityRequest) {
    !ValueMissing(f.adminName) && EmailInputValid(f.adminEmail) && !ValueMissing(f.adminPhone)
  }

  /** A field of step 1 or 2 that is not required changes neither
      predicate; a required one can. */
  lemma ChangeOutsideStepKeepsComplete(f: CommunityRequest, k: Field, v: string)
    ensures FieldStep(k) != 1 ==> (Step1Complete(HandleChange(f, k, v)) <==> Step1Complete(f))
    ensures FieldStep(k) != 2 ==> (Step2Complete(HandleChange(f, k, v)) <==> Step2Complete(f))
  {
  }

  datatype Wizard = Wizard(step: int, form: CommunityRequest)

  const Initial := Wizard(1, EmptyForm)

  predicate ValidStep(w: Wizard) {
    1 <= w.step <= 3
  }

  /** The current step's inputs pass the browser's validation. */
  predicate StepComplete(w: Wizard) {
    && (w.step == 1 ==> Step1Complete(w.form))
    && (w.step == 2 ==> Step2Complete(w.form))
  }

  /** Submitting the form: when the current step's inputs fail validation
      the browser does nothing. Otherwise `handleSubmit` runs: before the
      last step, move one step on and send nothing; on the last step, send
      the whole form and stay put. The second component is the request
      sent, if any. */
  function HandleSubmit(w: Wizard): (r: (Wizard, Option<CommunityRequest>))
    ensures !StepComplete(w) ==> r == (w, None)
    ensures StepComplete(w) && w.step < 3 ==> r.0 == w.(step := w.step + 1) && r.1 == None
    ensures w.step >= 3 ==> r.0 == w && r.1 == Some(w.form)
    ensures r.1.Some? <==> w.step >= 3
    ensures ValidStep(w) ==> ValidStep(r.0)
  {
    if !StepComplete(w) then (w, None)
    else if w.step < 3 then (w.(step := w.step + 1), None)
    else (w, Some(w.form))
  }

  /** The empty form cannot leave step 1. */
  lemma EmptyFormStaysOnStepOne()
    ensures HandleSubmit(Initial) == (Initial, None)
  {
  }

  /** The back button: present only after step 1, one step back. */
  function Back(w: Wizard): (r: Option<Wizard>)
    ensures r.Some? <==> w.step > 1
    ensures r.Some? ==> r.value == w.(step := w.step - 1)
    ensures ValidStep(w) && r.Some? ==> ValidStep(r.value)
  {
    if w.step > 1 then Some(w.(step := w.step - 1)) else None
  }

  datatype WizardEvent = Submit | GoBack | Change(field: Field, value: string)

  /** One event. A field can be typed into only while its step is on
      screen. */
  function Apply(w: Wizard, e: WizardEvent): (r: Wizard)
    ensures e.Change? ==> r.step == w.step
    ensures e.Change? && FieldStep(e.field) == w.step ==> r.form == HandleChange(w.form, e.field, e.value)
    ensures e.Change? && FieldStep(e.field) != w.step ==> r == w
  {
    match e
    case Submit => HandleSubmit(w).0
    case GoBack => Back(w).GetOr(w)
    case Change(k, v) => if FieldStep(k) == w.step then w.(form := HandleChange(w.form, k, v)) else w
  }

  function RunWizard(w: Wizard, es: seq<WizardEvent>): Wizard
    decreases |es|
  {
    if |es| == 0 then w else RunWizard(Apply(w, es[0]), es[1..])
  }

  /** Whatever the user clicks and types, the wizard stays within steps 1
      to 3. */
  lemma {:induction false} StepStaysInRange(w: Wizard, es: seq<WizardEvent>)
    requires ValidStep(w)
    ensures ValidStep(RunWizard(w, es))
    decreases |es|
  {
    if |es| > 0 {
      StepStaysInRange(Apply(w, es[0]), es[1..]);
    }
  }

  /** Three submissions from step 1, with the required inputs of steps 1
      and 2 filled in, reach step 3 and send the form as typed; the first
      two send nothing. */
  lemma ThirdSubmitSends(f: CommunityRequest)
    requires Step1Complete(f) && Step2Complete(f)
    ensures HandleSubmit(Wizard(1, f)).1.None?
    ensures HandleSubmit(HandleSubmit(Wizard(1, f)).0).1.None?
    ensures HandleSubmit(HandleSubmit(HandleSubmit(Wizard(1, f)).0).0) == (Wizard(3, f), Some(f))
  {
  }

  /** What a wizard reached from the start keeps: its step is in range, and
      every step before the current one has its required inputs filled in. */
  predicate Reachable(w: Wizard) {
    && ValidStep(w)
    && (w.step >= 2 ==> Step1Complete(w.form))
    && (w.step >= 3 ==> Step2Complete(w.form))
  }

  lemma ApplyKeepsReachable(w: Wizard, e: WizardEvent)
    requires Reachable(w)
    ensures Reachable(Apply(w, e))
  {
    if e.Change? {
      ChangeOutsideStepKeepsComplete(w.form, e.field, e.value);
    }
  }

  lemma {:induction false} RunKeepsReachable(w: Wizard, es: seq<WizardEvent>)
    requires Reachable(w)
    ensures Reachable(RunWizard(w, es))
    decreases |es|
  {
    if |es| > 0 {
      ApplyKeepsReachable(w, es[0]);
      RunKeepsReachable(Apply(w, es[0]), es[1..]);
    }
  }

  /** Whatever the user clicks and types, a form that is sent has every
      required input of steps 1 and 2 filled in, and is sent exactly when
      the wizard is on step 3. */
  lemma SentFormIsComplete(es: seq<WizardEvent>)
    ensures var w := RunWizard(Initial, es);
      && (HandleSubmit(w).1.Some? <==> w.step == 3)
      && (HandleSubmit(w).1.Some? ==>
            Step1Complete(HandleSubmit(w).1.value) && Step2Complete(HandleSubmit(w).1.value))
  {
    RunKeepsReachable(Initial, es);
  }

  /** The highlighted flags of the three progress segments: segment `i + 1`
      is highlighted when it is not past the current step. */
  function ProgressSegments(step: int): (r: seq<bool>)
    ensures |r| == 3
    ensures forall i :: 0 <= i < 3 ==> (r[i] <==> i + 1 <= step)
  {
    MapSeq([1, 2, 3], (s: int) => s <= step)
  }

  predicate IsLit(b: bool) {
    b
  }

  /** On every valid step, exactly `step` segments are highlighted. */
  lemma HighlightedSegments(step: int)
    requires 1 <= step <= 3
    ensures Count(ProgressSegments(step), IsLit) == step
  {
    var r := ProgressSegments(step);
    assert r == [1 <= step, 2 <= step, 3 <= step];
    assert r[1..][1..] == [3 <= step];
  }
}
