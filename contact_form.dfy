/**
 * The contact-form component: its state record, the partial updates its
 * handlers apply, the ordered validation chain of the submit handler, the
 * success notice and the choice of the text shown under the form.
 */
module ContactForm {
  import opened Wrappers
  import JsString

  const NameMissing: string := "please enter a name"
  const EmailMissing: string := "please enter email id"
  const EmailInvalid: string := "please enter a valid email id"
  const MessageMissing: string := "please enter a message"

  /** The four validation texts, in the order their checks run. */
  const ErrorTexts: seq<string> := [NameMissing, EmailMissing, EmailInvalid, MessageMissing]

  /** The only accepted e-mail ending; the handler compares a 10-character tail with it. */
  const GmailSuffix: string := "@gmail.com"

  /** What follows the recorded name in the success notice. */
  const SentNotice: string := " your message has been sent successfully"

  /**
   * The component's state: the three inputs, the current error text, the
   * success flag, the name recorded at the last accepted submission (`n`)
   * and the success notice (`mess`).
   */
  datatype FormState = FormState(
    username: string,
    email: string,
    message: string,
    error: string,
    success: bool,
    n: string,
    mess: string)

  /** The state the component is mounted with. */
  const Initial: FormState := FormState("", "", "", "", false, "", "")

  /** The argument of a `setState` call: the fields it lists, each with its new value. */
  datatype Patch = Patch(
    username: Option<string> := None,
    email: Option<string> := None,
    message: Option<string> := None,
    error: Option<string> := None,
    success: Option<bool> := None,
    n: Option<string> := None,
    mess: Option<string> := None)

  /** `setState(p)`: the fields `p` lists take their new values, every other field keeps its own. */
  function Merge(s: FormState, p: Patch): (r: FormState)
    ensures p.username.None? ==> r.username == s.username
    ensures p.email.None? ==> r.email == s.email
    ensures p.message.None? ==> r.message == s.message
    ensures p.error.None? ==> r.error == s.error
    ensures p.success.None? ==> r.success == s.success
    ensures p.n.None? ==> r.n == s.n
    ensures p.mess.None? ==> r.mess == s.mess
    ensures p.username.Some? ==> r.username == p.username.value
    ensures p.email.Some? ==> r.email == p.email.value
    ensures p.message.Some? ==> r.message == p.message.value
    ensures p.error.Some? ==> r.error == p.error.value
    ensures p.success.Some? ==> r.success == p.success.value
    ensures p.n.Some? ==> r.n == p.n.value
    ensures p.mess.Some? ==> r.mess == p.mess.value
  {
    FormState(
      p.username.GetOr(s.username),
      p.email.GetOr(s.email),
      p.message.GetOr(s.message),
      p.error.GetOr(s.error),
      p.success.GetOr(s.success),
      p.n.GetOr(s.n),
      p.mess.GetOr(s.mess))
  }

  /** The update of a rejected submission: the error text, and the notice cleared. */
  function ErrorPatch(error: string): Patch
  {
    Patch(error := Some(error), mess := Some(""))
  }

  /** The update of an accepted submission: name recorded, inputs and error cleared, flag raised. */
  function SuccessPatch(username: string): Patch
  {
    Patch(error := Some(""), success := Some(true), n := Some(username),
          username := Some(""), email := Some(""), message := Some(""))
  }

  /**
   * The e-mail test of the submit handler: the slice from `length - 10` to
   * `length` compared with the accepted ending.
   */
  predicate SuffixTest(email: string): (r: bool)
    ensures r ==> |email| >= 10
  {
    JsString.Slice(email, |email| - 10, |email|) == GmailSuffix
  }

  /** The slice test accepts exactly the e-mails of at least 10 characters whose last 10 are the Gmail ending. */
  lemma SuffixTestIsEndsWithGmail(email: string)
    ensures SuffixTest(email) <==> |email| >= 10 && email[|email| - 10..] == GmailSuffix
    ensures SuffixTest(email) <==> JsString.EndsWith(email, GmailSuffix)
  {
    assert |GmailSuffix| == 10;
    JsString.TailSliceDecidesEndsWith(email, GmailSuffix);
  }

  /** Shorter e-mails fail, the bare ending itself passes, and so does any address carrying it. */
  lemma SuffixTestEdgeCases(email: string)
    ensures |email| < 10 ==> !SuffixTest(email)
    ensures SuffixTest(GmailSuffix)
    ensures SuffixTest(email + GmailSuffix)
  {
    SuffixTestIsEndsWithGmail(email);
    SuffixTestIsEndsWithGmail(GmailSuffix);
    SuffixTestIsEndsWithGmail(email + GmailSuffix);
    assert (email + GmailSuffix)[|email + GmailSuffix| - 10..] == GmailSuffix;
  }

  /** The outcome of the validation chain. */
  datatype Verdict = Rejected(error: string) | Accepted

  /** One validation check: whether it passes, and the text it reports when it does not. */
  datatype Check = Check(passes: bool, error: string)

  /** The submit handler's checks, in the order they run. */
  function Checks(username: string, email: string, message: string): seq<Check>
  {
    [Check(username != "", NameMissing),
     Check(email != "", EmailMissing),
     Check(SuffixTest(email), EmailInvalid),
     Check(message != "", MessageMissing)]
  }

  /**
   * Reference meaning of an ordered chain of checks: the text of the first
   * check that fails, or acceptance when none does.
   */
  function FirstFailure(checks: seq<Check>): (v: Verdict)
    ensures v.Accepted? <==> forall i :: 0 <= i < |checks| ==> checks[i].passes
    ensures v.Rejected? ==>
      exists i :: 0 <= i < |checks| && !checks[i].passes && v.error == checks[i].error &&
                  forall j :: 0 <= j < i ==> checks[j].passes
  {
    if checks == [] then Accepted
    else if !checks[0].passes then Rejected(checks[0].error)
    else FirstFailure(checks[1..])
  }

  /** The if / else-if chain of the submit handler. */
  function Validate(username: string, email: string, message: string): (v: Verdict)
    ensures v.Accepted? <==> username != "" && email != "" && SuffixTest(email) && message != ""
    ensures v.Rejected? ==> v.error in ErrorTexts
  {
    if username == "" then Rejected(NameMissing)
    else if email == "" then Rejected(EmailMissing)
    else if !SuffixTest(email) then Rejected(EmailInvalid)
    else if message == "" then Rejected(MessageMissing)
    else Accepted
  }

  /** The handler's chain reports exactly what the ordered-checks reading of it prescribes. */
  lemma ValidateIsFirstFailure(username: string, email: string, message: string)
    ensures Validate(username, email, message) == FirstFailure(Checks(username, email, message))
  {
    var c := Checks(username, email, message);
    assert c[1..][1..] == c[2..] && c[2..][1..] == c[3..] && c[3..][1..] == [];
    assert FirstFailure(c[3..]) == (if message == "" then Rejected(MessageMissing) else Accepted);
    assert FirstFailure(c[2..]) == (if !SuffixTest(email) then Rejected(EmailInvalid) else FirstFailure(c[3..]));
    assert FirstFailure(c[1..]) == (if email == "" then Rejected(EmailMissing) else FirstFailure(c[2..]));
    assert FirstFailure(c) == (if username == "" then Rejected(NameMissing) else FirstFailure(c[1..]));
  }

  /** The follow-up step after an accepted submission: the notice built from the recorded name. */
  function Themess(s: FormState): (r: FormState)
    ensures r == s.(mess := s.n + SentNotice)
  {
    Merge(s, Patch(mess := Some(s.n + SentNotice)))
  }

  /** One submission: the validation chain, then either the error update or the success update and its follow-up. */
  function Submit(s: FormState): (r: FormState)
    ensures r.success <==> s.success || Validate(s.username, s.email, s.message).Accepted?
    ensures r.n == (if Validate(s.username, s.email, s.message).Accepted? then s.username else s.n)
    ensures r.mess == "" || r.mess == r.n + SentNotice
  {
    match Validate(s.username, s.email, s.message)
    case Rejected(e) => Merge(s, ErrorPatch(e))
    case Accepted => Themess(Merge(s, SuccessPatch(s.username)))
  }

  /** The text shown under the form: the notice once the flag is up, the error text before. */
  function Shown(s: FormState): (r: string)
    ensures s.success ==> r == s.mess
    ensures !s.success ==> r == s.error
  {
    if s.success then s.mess else s.error
  }

  /** A rejected submission sets one of the four texts, clears the notice and changes nothing else. */
  lemma RejectedSubmission(s: FormState)
    requires Validate(s.username, s.email, s.message).Rejected?
    ensures Submit(s).error in ErrorTexts
    ensures Submit(s) == s.(error := Submit(s).error, mess := "")
  {
  }

  /** An accepted submission records the name, clears inputs and error, raises the flag and builds the notice. */
  lemma AcceptedSubmission(s: FormState)
    requires Validate(s.username, s.email, s.message).Accepted?
    ensures Submit(s) == FormState("", "", "", "", true, s.username, s.username + SentNotice)
  {
  }

  /** Every submission takes exactly one of the two outcomes, told apart by the error text it leaves. */
  lemma ExactlyOneOutcome(s: FormState)
    ensures Submit(s).error == "" <==> Validate(s.username, s.email, s.message).Accepted?
    ensures Submit(s).error in ErrorTexts <==> Validate(s.username, s.email, s.message).Rejected?
  {
  }

  /**
   * The checks report in a fixed order; in particular an empty e-mail is
   * reported as missing, never as invalid, although it fails the slice test too.
   */
  lemma CheckOrder(s: FormState)
    ensures s.username == "" ==> Submit(s).error == NameMissing
    ensures s.username != "" && s.email == "" ==> Submit(s).error == EmailMissing && !SuffixTest(s.email)
    ensures s.username != "" && s.email != "" && !JsString.EndsWith(s.email, GmailSuffix) ==>
      Submit(s).error == EmailInvalid
    ensures s.username != "" && JsString.EndsWith(s.email, GmailSuffix) && s.message == "" ==>
      Submit(s).error == MessageMissing
  {
    SuffixTestIsEndsWithGmail(s.email);
  }

  /** The flag is never lowered; after an earlier success a rejected submission shows an empty text, not its error. */
  lemma SuccessSticks(s: FormState)
    requires s.success
    ensures Submit(s).success
    ensures Validate(s.username, s.email, s.message).Rejected? ==> Shown(Submit(s)) == ""
  {
  }

  /**
   * The component object. Its fields are the state record; each handler
   * applies the partial updates the component issues, in order.
   */
  class App {
    var username: string
    var email: string
    var message: string
    var error: string
    var success: bool
    var n: string
    var mess: string

    /** The state record the fields hold. */
    function State(): FormState
      reads this
    {
      FormState(username, email, message, error, success, n, mess)
    }

    /** Mounting: every text empty, the flag down. */
    constructor ()
      ensures State() == Initial
      ensures Shown(State()) == ""
    {
      username, email, message, error := "", "", "", "";
      success, n, mess := false, "", "";
    }

    /** `setState(p)`, applied at once. */
    method SetState(p: Patch)
      modifies this
      ensures State() == Merge(old(State()), p)
    {
      if p.username.Some? { username := p.username.value; }
      if p.email.Some? { email := p.email.value; }
      if p.message.Some? { message := p.message.value; }
      if p.error.Some? { error := p.error.value; }
      if p.success.Some? { success := p.success.value; }
      if p.n.Some? { n := p.n.value; }
      if p.mess.Some? { mess := p.mess.value; }
    }

    /** The name input's change handler: sets the name and nothing else. */
    method GetName(value: string)
      modifies this
      ensures State() == old(State()).(username := value)
    {
      SetState(Patch(username := Some(value)));
    }

    /** The e-mail input's change handler: sets the e-mail and nothing else. */
    method GetEmail(value: string)
      modifies this
      ensures State() == old(State()).(email := value)
    {
      SetState(Patch(email := Some(value)));
    }

    /** The message area's change handler: sets the message and nothing else. */
    method GetMessage(value: string)
      modifies this
      ensures State() == old(State()).(message := value)
    {
      SetState(Patch(message := Some(value)));
    }

    /** The success update's callback: the notice from the recorded name, nothing else changed. */
    method GetThemess()
      modifies this
      ensures State() == old(State()).(mess := old(n) + SentNotice)
    {
      SetState(Patch(mess := Some(n + SentNotice)));
    }

    /**
     * The submit handler: the if / else-if chain of error updates, then a
     * separately guarded success update followed by its callback.
     */
    method DisplayMessage()
      modifies this
      ensures State() == Submit(old(State()))
      ensures old(State()).success ==> success
    {
      var username, email, message := this.username, this.email, this.message;
      var len := |email|;
      var ifContains := JsString.Slice(email, len - 10, len);
      if username == "" {
        SetState(ErrorPatch(NameMissing));
      } else if email == "" {
        SetState(ErrorPatch(EmailMissing));
      } else if ifContains != GmailSuffix {
        SetState(ErrorPatch(EmailInvalid));
      } else if message == "" {
        SetState(ErrorPatch(MessageMissing));
      }

      if username != "" && email != "" && ifContains == GmailSuffix && message != "" {
        SetState(SuccessPatch(username));
        GetThemess();
      }
    }

    /** The message part of `render`. */
    method Render() returns (shown: string)
      ensures shown == Shown(State())
      ensures success ==> shown == mess
      ensures !success ==> shown == error
    {
      shown := if success then mess else error;
    }
  }
}
