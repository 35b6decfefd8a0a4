/** The client's form reducer: the four input fields and the loading and message flags of a
    vote submission. */
module Form {
  import opened Wrappers
  import opened FormValidation

  datatype FormState = FormState(
    name: string,
    email: string,
    language: string,
    reason: string,
    isLoading: bool,
    error: Option<string>,
    successMessage: Option<string>)

  /** The seven actions of the slice. */
  datatype FormAction =
    | SetFormValue(field: Field, value: string)
    | SubmitVoteRequest
    | SubmitVoteSuccess(message: string)
    | SubmitVoteFailure(message: string)
    | ClearForm
    | SetFormError(message: string)
    | ClearMessages

  /** `initialState`. */
  const Initial := FormState("", "", "", "", false, None, None)

  function FieldValue(s: FormState, f: Field): string {
    match f
    case Name => s.name
    case Email => s.email
    case Language => s.language
    case Reason => s.reason
  }

  /** The shown messages never contradict each other: not an error and a success at once. */
  predicate OneMessage(s: FormState) {
    !(s.error.Some? && s.successMessage.Some?)
  }

  /** `if (state.error)`: a message is set and, being a string, truthy only when non-empty. */
  predicate HasError(s: FormState) {
    s.error.Some? && s.error.value != ""
  }

  /** Reference definition of the reducer. */
  function Reduce(s: FormState, a: FormAction): (r: FormState)
    ensures OneMessage(s) ==> OneMessage(r)
  {
    match a
    case SetFormValue(f, v) =>
      var t := match f
               case Name => s.(name := v)
               case Email => s.(email := v)
               case Language => s.(language := v)
               case Reason => s.(reason := v);
      if HasError(s) then t.(error := None) else t
    case SubmitVoteRequest => s.(isLoading := true, error := None, successMessage := None)
    case SubmitVoteSuccess(m) => s.(isLoading := false, successMessage := Some(m), error := None)
    case SubmitVoteFailure(m) => s.(isLoading := false, error := Some(m), successMessage := None)
    case ClearForm => s.(name := "", email := "", language := "", reason := "", error := None, successMessage := None)
    case SetFormError(m) => s.(error := Some(m), successMessage := None)
    case ClearMessages => s.(error := None, successMessage := None)
  }

  /** The state after dispatching `actions` in order. */
  function Run(s: FormState, actions: seq<FormAction>): FormState
    decreases |actions|
  {
    if actions == [] then s else Run(Reduce(s, actions[0]), actions[1..])
  }

  /** From the initial state no sequence of actions shows an error and a success at once. */
  lemma {:induction false} NeverBothMessages(actions: seq<FormAction>)
    ensures OneMessage(Run(Initial, actions))
  {
    RunKeepsOneMessage(Initial, actions);
  }

  lemma {:induction false} RunKeepsOneMessage(s: FormState, actions: seq<FormAction>)
    requires OneMessage(s)
    ensures OneMessage(Run(s, actions))
    decreases |actions|
  {
    if actions != [] {
      RunKeepsOneMessage(Reduce(s, actions[0]), actions[1..]);
    }
  }

  /** `setFormValue` writes one field and no other, and drops a non-empty error. */
  lemma SetFormValueWritesOneField(s: FormState, f: Field, v: string)
    ensures var r := Reduce(s, SetFormValue(f, v));
            && FieldValue(r, f) == v
            && (forall g :: g != f ==> FieldValue(r, g) == FieldValue(s, g))
            && r.isLoading == s.isLoading && r.successMessage == s.successMessage
            && r.error == if HasError(s) then None else s.error
  {
  }

  /** `clearForm` keeps only `isLoading`: from an idle state it gives back the initial state. */
  lemma ClearFormResets(s: FormState)
    ensures Reduce(s, ClearForm) == Initial.(isLoading := s.isLoading)
    ensures !s.isLoading ==> Reduce(s, ClearForm) == Initial
  {
  }

  /** Dispatching actions one after another is running their concatenation. */
  lemma {:induction false} RunConcat(s: FormState, xs: seq<FormAction>, ys: seq<FormAction>)
    ensures Run(s, xs + ys) == Run(Run(s, xs), ys)
    decreases |xs|
  {
    if xs == [] {
      assert xs + ys == ys;
    } else {
      assert (xs + ys)[0] == xs[0] && (xs + ys)[1..] == xs[1..] + ys;
      RunConcat(Reduce(s, xs[0]), xs[1..], ys);
    }
  }

  /** Dispatching one more action applies the reducer to the state reached so far. */
  lemma RunSnoc(s: FormState, xs: seq<FormAction>, a: FormAction)
    ensures Run(s, xs + [a]) == Reduce(Run(s, xs), a)
  {
    RunConcat(s, xs, [a]);
    assert [a][1..] == [];
  }

  /** The `form` slice of the client store. */
  class FormSlice {
    var name: string
    var email: string
    var language: string
    var reason: string
    var isLoading: bool
    var error: Option<string>
    var successMessage: Option<string>
    /** The actions dispatched so far. */
    ghost var history: seq<FormAction>

    function State(): FormState
      reads this
    {
      FormState(name, email, language, reason, isLoading, error, successMessage)
    }

    /** The state is the one the dispatched actions lead to from the initial state. */
    ghost predicate Valid()
      reads this
    {
      State() == Run(Initial, history)
    }

    /** Records `a` in the history, once the state has moved from `before` to
        `Reduce(before, a)`. */
    ghost method Dispatched(before: FormState, a: FormAction)
      requires Run(Initial, history) == before && State() == Reduce(before, a)
      modifies this
      ensures history == old(history) + [a]
      ensures Valid() && OneMessage(State())
      ensures State() == old(State())
    {
      RunSnoc(Initial, history, a);
      history := history + [a];
      NeverBothMessages(history);
    }

    constructor ()
      ensures State() == Initial
      ensures Valid() && history == []
    {
      name, email, language, reason := "", "", "", "";
      isLoading, error, successMessage := false, None, None;
      history := [];
    }

    /** `setFormValue`: writes the named field; clears `error` when it holds a non-empty
        message. */
    method SetFormValue(field: Field, value: string)
      requires Valid()
      modifies this
      ensures FieldValue(State(), field) == value
      ensures forall g :: g != field ==> FieldValue(State(), g) == FieldValue(old(State()), g)
      ensures isLoading == old(isLoading) && successMessage == old(successMessage)
      ensures error == if old(HasError(State())) then None else old(error)
      ensures State() == Reduce(old(State()), FormAction.SetFormValue(field, value))
      ensures Valid() && history == old(history) + [FormAction.SetFormValue(field, value)]
      ensures OneMessage(State())
    {
      match field {
        case Name => name := value;
        case Email => email := value;
        case Language => language := value;
        case Reason => reason := value;
      }
      if error.Some? && error.value != "" {
        error := None;
      }
      Dispatched(old(State()), FormAction.SetFormValue(field, value));
    }

    /** `submitVoteRequest`. */
    method SubmitVoteRequest()
      requires Valid()
      modifies this
      ensures isLoading && error == None && successMessage == None
      ensures name == old(name) && email == old(email) && language == old(language) && reason == old(reason)
      ensures State() == Reduce(old(State()), FormAction.SubmitVoteRequest)
      ensures Valid() && history == old(history) + [FormAction.SubmitVoteRequest]
      ensures OneMessage(State())
    {
      isLoading := true;
      error := None;
      successMessage := None;
      Dispatched(old(State()), FormAction.SubmitVoteRequest);
    }

    /** `submitVoteSuccess`. */
    method SubmitVoteSuccess(message: string)
      requires Valid()
      modifies this
      ensures !isLoading && successMessage == Some(message) && error == None
      ensures name == old(name) && email == old(email) && language == old(language) && reason == old(reason)
      ensures State() == Reduce(old(State()), FormAction.SubmitVoteSuccess(message))
      ensures Valid() && history == old(history) + [FormAction.SubmitVoteSuccess(message)]
      ensures OneMessage(State())
    {
      isLoading := false;
      successMessage := Some(message);
      error := None;
      Dispatched(old(State()), FormAction.SubmitVoteSuccess(message));
    }

    /** `submitVoteFailure`. */
    method SubmitVoteFailure(message: string)
      requires Valid()
      modifies this
      ensures !isLoading && error == Some(message) && successMessage == None
      ensures name == old(name) && email == old(email) && language == old(language) && reason == old(reason)
      ensures State() == Reduce(old(State()), FormAction.SubmitVoteFailure(message))
      ensures Valid() && history == old(history) + [FormAction.SubmitVoteFailure(message)]
      ensures OneMessage(State())
    {
      isLoading := false;
      error := Some(message);
      successMessage := None;
      Dispatched(old(State()), FormAction.SubmitVoteFailure(message));
    }

    /** `clearForm`: empties the fields and both messages, `isLoading` untouched. */
    method ClearForm()
      requires Valid()
      modifies this
      ensures name == "" && email == "" && language == "" && reason == ""
      ensures error == None && successMessage == None && isLoading == old(isLoading)
      ensures State() == Reduce(old(State()), FormAction.ClearForm)
      ensures Valid() && history == old(history) + [FormAction.ClearForm]
      ensures OneMessage(State())
    {
      name := "";
      email := "";
      language := "";
      reason := "";
      error := None;
      successMessage := None;
      Dispatched(old(State()), FormAction.ClearForm);
    }

    /** `setFormError`. */
    method SetFormError(message: string)
      requires Valid()
      modifies this
      ensures error == Some(message) && successMessage == None && isLoading == old(isLoading)
      ensures name == old(name) && email == old(email) && language == old(language) && reason == old(reason)
      ensures State() == Reduce(old(State()), FormAction.SetFormError(message))
      ensures Valid() && history == old(history) + [FormAction.SetFormError(message)]
      ensures OneMessage(State())
    {
      error := Some(message);
      successMessage := None;
      Dispatched(old(State()), FormAction.SetFormError(message));
    }

    /** `clearMessages`. */
    method ClearMessages()
      requires Valid()
      modifies this
      ensures error == None && successMessage == None && isLoading == old(isLoading)
      ensures name == old(name) && email == old(email) && language == old(language) && reason == old(reason)
      ensures State() == Reduce(old(State()), FormAction.ClearMessages)
      ensures Valid() && history == old(history) + [FormAction.ClearMessages]
      ensures OneMessage(State())
    {
      error := None;
      successMessage := None;
      Dispatched(old(State()), FormAction.ClearMessages);
    }
  }
}
