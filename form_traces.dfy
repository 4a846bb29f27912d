/**
 * Sequences of user interactions with the contact form: typing into one of
 * the three inputs, or submitting. States reachable from the mounted state
 * keep an invariant that bounds what can ever be shown under the form.
 */
module FormTraces {
  import opened Wrappers
  import opened ContactForm

  /** One interaction: a change of one input, or a submission. */
  datatype Event =
    | NameTyped(value: string)
    | EmailTyped(value: string)
    | MessageTyped(value: string)
    | Submitted

  /** The state after one interaction. */
  function Step(s: FormState, e: Event): (r: FormState)
    ensures !e.Submitted? ==> r.(username := s.username, email := s.email, message := s.message) == s
    ensures s.success ==> r.success
  {
    match e
    case NameTyped(v) => Merge(s, Patch(username := Some(v)))
    case EmailTyped(v) => Merge(s, Patch(email := Some(v)))
    case MessageTyped(v) => Merge(s, Patch(message := Some(v)))
    case Submitted => Submit(s)
  }

  /** The state after a sequence of interactions, in order. */
  function Run(s: FormState, events: seq<Event>): FormState
    decreases |events|
  {
    if events == [] then s else Run(Step(s, events[0]), events[1..])
  }

  /** Typing into an input changes that input and nothing else. */
  lemma TypingChangesOneField(s: FormState, v: string)
    ensures Step(s, NameTyped(v)) == s.(username := v)
    ensures Step(s, EmailTyped(v)) == s.(email := v)
    ensures Step(s, MessageTyped(v)) == s.(message := v)
  {
  }

  /**
   * The invariant of every reachable state: the error text is empty or one
   * of the four; before any success no name is recorded and no notice
   * exists; after one the recorded name is non-empty; and the notice is
   * either empty or built from the recorded name.
   */
  predicate Consistent(s: FormState)
  {
    && (s.error == "" || s.error in ErrorTexts)
    && (!s.success ==> s.n == "" && s.mess == "")
    && (s.success ==> s.n != "")
    && (s.mess == "" || s.mess == s.n + SentNotice)
  }

  /** The mounted state is consistent. */
  lemma InitialConsistent()
    ensures Consistent(Initial)
  {
  }

  /** Every interaction keeps the invariant. */
  lemma StepKeepsConsistent(s: FormState, e: Event)
    requires Consistent(s)
    ensures Consistent(Step(s, e))
  {
    if e.Submitted? {
      if Validate(s.username, s.email, s.message).Rejected? {
        RejectedSubmission(s);
      } else {
        AcceptedSubmission(s);
      }
    }
  }

  /** Every sequence of interactions keeps the invariant. */
  lemma {:induction false} RunKeepsConsistent(s: FormState, events: seq<Event>)
    requires Consistent(s)
    ensures Consistent(Run(s, events))
    decreases |events|
  {
    if events != [] {
      StepKeepsConsistent(s, events[0]);
      RunKeepsConsistent(Step(s, events[0]), events[1..]);
    }
  }

  /**
   * Whatever the user does, the text under the form is empty, one of the
   * four error texts, or the notice for a non-empty recorded name.
   */
  lemma ReachableShown(events: seq<Event>)
    ensures var s := Run(Initial, events);
      || Shown(s) == ""
      || Shown(s) in ErrorTexts
      || (s.success && s.n != "" && Shown(s) == s.n + SentNotice)
  {
    InitialConsistent();
    RunKeepsConsistent(Initial, events);
  }

  /** Once raised, the success flag stays up through any later interactions. */
  lemma {:induction false} RunKeepsSuccess(s: FormState, events: seq<Event>)
    requires s.success
    ensures Run(s, events).success
    decreases |events|
  {
    if events != [] {
      if events[0].Submitted? {
        SuccessSticks(s);
      }
      RunKeepsSuccess(Step(s, events[0]), events[1..]);
    }
  }

  /**
   * The flag records that some submission was accepted, not that the last
   * one was: an accepted submission followed by a second, empty one leaves
   * the flag up and the name error set, and shows an empty text.
   */
  lemma FlagOutlivesLaterRejection()
    ensures var s := Run(Initial, [NameTyped("Bob"), EmailTyped("bob@gmail.com"), MessageTyped("hi"), Submitted, Submitted]);
      s.success && s.error == NameMissing && Shown(s) == ""
  {
    SuffixTestEdgeCases("bob");
    assert "bob" + GmailSuffix == "bob@gmail.com";
  }

  /** Running a non-empty sequence is one step, then the rest. */
  lemma RunFirst(s: FormState, e: Event, rest: seq<Event>)
    ensures Run(s, [e] + rest) == Run(Step(s, e), rest)
  {
    assert ([e] + rest)[1..] == rest;
  }

  /** A complete, well-formed entry is accepted and the notice names the sender. */
  lemma CompleteEntryAccepted(s: FormState, name: string, local: string, text: string)
    requires name != "" && text != ""
    ensures var r := Run(s, [NameTyped(name), EmailTyped(local + GmailSuffix), MessageTyped(text), Submitted]);
      r.success && r.error == "" && r.n == name && Shown(r) == name + SentNotice &&
      r.username == "" && r.email == "" && r.message == ""
  {
    var email := local + GmailSuffix;
    var s3 := s.(username := name, email := email, message := text);
    SuffixTestEdgeCases(local);
    AcceptedSubmission(s3);
    RunFirst(s3, Submitted, []);
    RunFirst(Step(s, NameTyped(name)).(email := email), MessageTyped(text), [Submitted]);
    RunFirst(Step(s, NameTyped(name)), EmailTyped(email), [MessageTyped(text), Submitted]);
    RunFirst(s, NameTyped(name), [EmailTyped(email), MessageTyped(text), Submitted]);
  }

  /** An entry without a name is rejected for the name. */
  lemma ConcreteNameMissing(s: FormState)
    ensures Step(s.(username := "", email := "x@gmail.com", message := "hi"), Submitted).error == NameMissing
  {
    CheckOrder(s.(username := "", email := "x@gmail.com", message := "hi"));
  }

  /** An entry without an e-mail is rejected for the missing e-mail. */
  lemma ConcreteEmailMissing(s: FormState)
    ensures Step(s.(username := "Bob", email := "", message := "hi"), Submitted).error == EmailMissing
  {
    CheckOrder(s.(username := "Bob", email := "", message := "hi"));
  }

  /** An entry with a non-Gmail address is rejected for the address. */
  lemma ConcreteEmailInvalid(s: FormState)
    ensures Step(s.(username := "Bob", email := "bob@yahoo.com", message := "hi"), Submitted).error == EmailInvalid
  {
    var email := "bob@yahoo.com";
    assert email[|email| - 10..][1] != GmailSuffix[1];
    CheckOrder(s.(username := "Bob", email := email, message := "hi"));
  }

  /** A Gmail entry without a message is rejected for the message. */
  lemma ConcreteMessageMissing(s: FormState)
    ensures Step(s.(username := "Bob", email := "bob@gmail.com", message := ""), Submitted).error == MessageMissing
  {
    var email := "bob@gmail.com";
    assert email == "bob" + GmailSuffix;
    assert JsString.EndsWith(email, GmailSuffix);
    CheckOrder(s.(username := "Bob", email := email, message := ""));
  }
}
