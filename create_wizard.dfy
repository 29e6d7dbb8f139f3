/**
 * The four-step poll creation form of app/polls/create/page.tsx: the step
 * counter, the editable list of option texts, the per-step gate and the
 * clean-up of the options before the poll is submitted.
 */
module CreateWizard {
  import opened Types
  import opened Strings
  import Seqs

  const TotalSteps := 4

  /** The form's initial state, lines 42-51: four empty options, results shown. */
  const InitialForm := PollFormData("", "", Single, Some(""), false, true, false, ["", "", "", ""])

  /** `nextStep`: one step forward unless already on the last one. */
  function Next(step: int): int
  {
    if step < TotalSteps then step + 1 else step
  }

  /** `prevStep`: one step back unless already on the first one. */
  function Prev(step: int): int
  {
    if step > 1 then step - 1 else step
  }

  /** Both moves keep the step in 1..4, and each undoes the other where it moved. */
  lemma StepsStayInRange(step: int)
    requires 1 <= step <= TotalSteps
    ensures 1 <= Next(step) <= TotalSteps && 1 <= Prev(step) <= TotalSteps
    ensures step < TotalSteps ==> Prev(Next(step)) == step
    ensures step > 1 ==> Next(Prev(step)) == step
    ensures Next(step) == step <==> step == TotalSteps
    ensures Prev(step) == step <==> step == 1
  {
  }

  /** `(currentStep / totalSteps) * 100`, exact because 4 divides 100. */
  function Progress(step: int): int
  {
    100 * step / TotalSteps
  }

  lemma ProgressValues(step: int)
    requires 1 <= step <= TotalSteps
    ensures Progress(step) == 25 * step
    ensures Progress(step) in {25, 50, 75, 100}
  {
  }

  /** `addOption`: one more empty option at the end. */
  function Appended(options: seq<string>): (r: seq<string>)
    ensures |r| == |options| + 1
    ensures r[..|options|] == options && r[|options|] == ""
  {
    options + [""]
  }

  /** `options.filter((_, i) => i !== index)`: the entry at `index` dropped, if there is one. */
  function Removed(options: seq<string>, index: int): (r: seq<string>)
    ensures 0 <= index < |options| ==> |r| == |options| - 1
    ensures 0 <= index < |options| ==> forall j :: 0 <= j < |r| ==> r[j] == options[if j < index then j else j + 1]
    ensures !(0 <= index < |options|) ==> r == options
  {
    if 0 <= index < |options| then options[..index] + options[index + 1..] else options
  }

  /** `options.map((o, i) => i === index ? value : o)`. */
  function Replaced(options: seq<string>, index: int, value: string): (r: seq<string>)
    ensures 0 <= index < |options| ==> r == options[index := value]
    ensures !(0 <= index < |options|) ==> r == options
  {
    var r := seq(|options|, j requires 0 <= j < |options| => if j == index then value else options[j]);
    assert 0 <= index < |options| ==> r == options[index := value];
    assert !(0 <= index < |options|) ==> r == options;
    r
  }

  /** `removeOption` only acts above two options, so the list never gets shorter than two. */
  function AfterRemove(options: seq<string>, index: int): (r: seq<string>)
    ensures |options| >= 2 ==> |r| >= 2
    ensures |options| <= 2 ==> r == options
  {
    if |options| > 2 then Removed(options, index) else options
  }

  /** Removing the option just added gives the list back. */
  lemma {:induction false} RemoveUndoesAdd(options: seq<string>)
    ensures Removed(Appended(options), |options|) == options
  {
    var a := Appended(options);
    assert a[..|options|] == options;
    assert a[|options| + 1..] == [];
    assert a[..|options|] + a[|options| + 1..] == options;
  }

  /** Writing an entry back to the value it holds changes nothing; a second write to it wins. */
  lemma ReplaceLaws(options: seq<string>, index: int, v: string, w: string)
    ensures 0 <= index < |options| ==> Replaced(options, index, options[index]) == options
    ensures Replaced(Replaced(options, index, v), index, w) == Replaced(options, index, w)
  {
    if 0 <= index < |options| {
      assert forall j :: 0 <= j < |options| ==> Replaced(options, index, options[index])[j] == options[j];
    }
    var a := Replaced(Replaced(options, index, v), index, w);
    var b := Replaced(options, index, w);
    assert forall j :: 0 <= j < |a| ==> a[j] == b[j];
  }

  /** `opt.trim() !== ''`. */
  predicate Filled(option: string)
  {
    Trim(option) != ""
  }

  /** The options that are not blank, in their order. */
  function FilledOptions(options: seq<string>): seq<string>
  {
    Seqs.Filter(Filled, options)
  }

  /** `canProceed()`, lines 101-114. */
  function CanProceedAt(step: int, form: PollFormData): bool
  {
    match step
    case 1 => Trim(form.title) != "" && Trim(form.description) != ""
    case 2 => |FilledOptions(form.options)| >= 2
    case 3 => true
    case 4 => true
    case _ => false
  }

  /** A string survives the filter exactly when it has a non-whitespace character. */
  lemma FilledIffNotBlank()
    ensures forall s :: Filled(s) <==> !IsBlank(s)
  {
    forall s: string
      ensures Filled(s) <==> !IsBlank(s)
    {
      TrimEmptyIffBlank(s);
    }
  }

  /** The gate, step by step, in terms of blankness. */
  lemma CanProceedCases(step: int, form: PollFormData)
    ensures step == 1 ==> (CanProceedAt(step, form) <==> !IsBlank(form.title) && !IsBlank(form.description))
    ensures step == 2 ==> (CanProceedAt(step, form) <==> |FilledOptions(form.options)| >= 2)
    ensures step == 3 || step == 4 ==> CanProceedAt(step, form)
    ensures !(1 <= step <= 4) ==> !CanProceedAt(step, form)
  {
    FilledIffNotBlank();
  }

  /** The form as submitted, lines 362-365: the blank options dropped. */
  function Sanitize(form: PollFormData): (r: PollFormData)
    ensures r == form.(options := r.options)
    ensures Seqs.IsSubsequence(r.options, form.options)
    ensures forall o :: o in r.options <==> o in form.options && !IsBlank(o)
    ensures forall o :: multiset(r.options)[o] == if IsBlank(o) then 0 else multiset(form.options)[o]
  {
    FilledIffNotBlank();
    Seqs.FilterIsSubsequence(Filled, form.options);
    form.(options := FilledOptions(form.options))
  }

  /**
   * What the submit button sends, lines 361-372: nothing when fewer than two
   * options are left, else the clean form and the creator id, '1' without a user.
   */
  function SubmitRequest(form: PollFormData, userId: Option<string>): (r: Option<(PollFormData, string)>)
    ensures r.Some? <==> |Sanitize(form).options| >= 2
    ensures r.Some? ==> r.value.0 == Sanitize(form)
    ensures r.Some? ==> r.value.1 == (if Present(userId) then userId.value else "1")
  {
    var s := Sanitize(form);
    if |s.options| < 2 then None else Some((s, Or(userId, "1")))
  }

  /** The second step lets the user on exactly when submitting would send something. */
  lemma StepTwoGateMatchesSubmit(form: PollFormData, userId: Option<string>)
    ensures CanProceedAt(2, form) <==> SubmitRequest(form, userId).Some?
  {
  }

  /** One field of `updateFormData(field, value)`; the options are edited separately. */
  datatype FieldUpdate =
    | SetTitle(title: string)
    | SetDescription(description: string)
    | SetKind(kind: PollType)
    | SetEndDate(endDate: string)
    | SetAnonymous(isAnonymous: bool)
    | SetShowResults(showResults: bool)
    | SetAllowMultipleVotes(allowMultipleVotes: bool)

  function WithField(form: PollFormData, u: FieldUpdate): (r: PollFormData)
    ensures r.options == form.options
  {
    match u
    case SetTitle(v) => form.(title := v)
    case SetDescription(v) => form.(description := v)
    case SetKind(v) => form.(kind := v)
    case SetEndDate(v) => form.(endDate := Some(v))
    case SetAnonymous(v) => form.(isAnonymous := v)
    case SetShowResults(v) => form.(showResults := v)
    case SetAllowMultipleVotes(v) => form.(allowMultipleVotes := v)
  }

  /** The component's state: the current step and the form. */
  class Wizard {
    var currentStep: int
    var form: PollFormData

    ghost predicate Valid()
      reads this
    {
      1 <= currentStep <= TotalSteps && |form.options| >= 2
    }

    constructor ()
      ensures Valid() && currentStep == 1 && form == InitialForm
    {
      currentStep := 1;
      form := InitialForm;
    }

    function CanProceed(): bool
      reads this
    {
      CanProceedAt(currentStep, form)
    }

    method NextStep()
      requires Valid()
      modifies this
      ensures Valid() && currentStep == Next(old(currentStep)) && form == old(form)
    {
      if currentStep < TotalSteps {
        currentStep := currentStep + 1;
      }
    }

    method PrevStep()
      requires Valid()
      modifies this
      ensures Valid() && currentStep == Prev(old(currentStep)) && form == old(form)
    {
      if currentStep > 1 {
        currentStep := currentStep - 1;
      }
    }

    method AddOption()
      requires Valid()
      modifies this
      ensures Valid() && currentStep == old(currentStep)
      ensures form == old(form).(options := Appended(old(form.options)))
    {
      form := form.(options := form.options + [""]);
    }

    method RemoveOption(index: int)
      requires Valid()
      modifies this
      ensures Valid() && currentStep == old(currentStep)
      ensures form == old(form).(options := AfterRemove(old(form.options), index))
    {
      if |form.options| > 2 {
        form := form.(options := Removed(form.options, index));
      }
    }

    method UpdateOption(index: int, value: string)
      requires Valid()
      modifies this
      ensures Valid() && currentStep == old(currentStep)
      ensures form == old(form).(options := Replaced(old(form.options), index, value))
    {
      form := form.(options := Replaced(form.options, index, value));
    }

    method UpdateField(u: FieldUpdate)
      requires Valid()
      modifies this
      ensures Valid() && currentStep == old(currentStep)
      ensures form == WithField(old(form), u)
    {
      form := WithField(form, u);
    }
  }
}
