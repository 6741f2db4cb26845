/** The entry form: a one-line email check, then a fresh session written to
    the storage slot and a route to the first question. */
module EmailView {
  import opened JsCore
  import opened Api

  /** `email && email.includes('@')`: non-empty and containing an at sign. */
  predicate IsValidEmail(email: string)
    ensures IsValidEmail(email) <==> exists i :: 0 <= i < |email| && email[i] == '@'
  {
    email != "" && '@' in email
  }

  /** The check is as loose as written: "@" alone passes, a string without an at sign does not. */
  lemma EmailCheckExamples()
    ensures IsValidEmail("@") && IsValidEmail("a@b.com")
    ensures !IsValidEmail("") && !IsValidEmail("user.example.com")
  {
    assert "@"[0] == '@';
    assert "a@b.com"[1] == '@';
  }

  /** What a submit of the form does for the user: an alert, or a route. */
  datatype Outcome = Alerted(message: string) | Navigated(path: string)

  const InvalidEmailMessage := "Please enter a valid email address"
  const FirstQuestionPath := "/question/1"

  class EmailForm {
    var email: string
    var isLoading: bool

    constructor ()
      ensures email == "" && !isLoading
    {
      email := "";
      isLoading := false;
    }

    /** The email input's change handler. */
    method SetEmail(value: string)
      modifies this
      ensures email == value && isLoading == old(isLoading)
    {
      email := value;
    }

    /** `handleSubmit`: a rejected email alerts and changes nothing; an accepted
        one sets the loading flag (never cleared), saves a fresh session for it
        and routes to question 1. */
    method HandleSubmit(store: SessionStore, now: int, startDate: int) returns (outcome: Outcome)
      modifies this, store
      ensures email == old(email)
      ensures !IsValidEmail(email) ==>
        outcome == Alerted(InvalidEmailMessage) && isLoading == old(isLoading) && store.slot == old(store.slot)
      ensures IsValidEmail(email) ==>
        && isLoading
        && store.slot == Some(CreateNewSession(email, now, startDate))
        && outcome == Navigated(FirstQuestionPath)
    {
      if !IsValidEmail(email) {
        return Alerted(InvalidEmailMessage);
      }
      isLoading := true;
      var session := CreateNewSession(email, now, startDate);
      store.Save(session);
      outcome := Navigated(FirstQuestionPath);
    }
  }

  /** The session saved on acceptance opens question 1 and nothing past it. */
  lemma AcceptedSessionOpensOnlyFirst(email: string, now: int, startDate: int, q: int)
    ensures CanAccessQuestion(CreateNewSession(email, now, startDate), q) <==> q <= 1
  {
  }
}
