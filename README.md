# Contact form: a verified model

This project models the contact-form component of the repository (`src/App.js`).
The component keeps a state record of seven fields:

- the three inputs `username`, `email` and `message`;
- the current error text `error`;
- the flag `success`;
- the name recorded at the last accepted submission, `n`;
- the success notice `mess`.

Three change handlers each overwrite one input. The submit handler runs an ordered chain of
checks and sets the text of the first one that fails:

1. the name is present;
2. the e-mail is present;
3. the e-mail's last ten characters, taken with `slice(length - 10, length)`, are `@gmail.com`;
4. the message is present.

When every check passes, a separately guarded update records the name, clears the inputs and
the error, and raises the flag. Its callback then builds the notice
`<name> your message has been sent successfully`. `render` shows the notice while the flag is
up and the error text otherwise.

Modules:

- `Wrappers`: the optional value used for partial updates.
- `JsString`: ECMAScript `String.prototype.slice` as ECMA-262 defines it, with its
  index clamping, and a reference `EndsWith`.
- `ContactForm`: the state record, `setState` as a field merge (`Patch`, `Merge`), the
  validation chain (`Validate`) and its ordered-checks reference (`FirstFailure`), one
  submission (`Submit`), the shown text (`Shown`), and the class `App`. The class has the
  record's fields and one method per handler, each proved against those functions.
- `FormTraces`: sequences of user interactions, the invariant every reachable state keeps,
  and concrete entries.

`setState(partial)` is modelled as an immediate merge: the listed fields take the new values
and the rest keep theirs. The `getThemess` callback runs right after the success merge.

Two points where the code decides:

- With an e-mail shorter than ten characters, `len - 10` is negative and `slice` counts it back
  from the end a second time (clamped at 0). So a suffix shorter than ten characters is
  compared (the whole e-mail when it has at most five characters), and the test fails. The test is exactly "at least ten characters, the last ten being
  `@gmail.com`" (`ContactForm.SuffixTestIsEndsWithGmail`).
- The success flag is never lowered. One might expect the flag to hold exactly when the most
  recent submission passed; the code only ever sets it to true (src/App.js:55), and the model
  follows the code. So after a success, a rejected
  submission sets its error text but the form shows the (cleared) notice, an empty text
  (`ContactForm.SuccessSticks`, `FormTraces.FlagOutlivesLaterRejection`).

## Model

| member | source | states |
|---|---|---|
| `JsString.Slice` | src/App.js:35 | the slice is no longer than the string; inside the bounds it is the ordinary subsequence, and an empty range gives the empty string |
| `JsString.TailSlice` | src/App.js:34-35 | slicing the last k characters gives the k-character tail when the string is long enough, and otherwise a suffix strictly shorter than k (the negative start is clamped, never an error), which is the whole string when k is at least twice its length |
| `JsString.TailSliceDecidesEndsWith` | src/App.js:34-35 | the tail-slice comparison with t holds exactly when the string ends with t |
| `ContactForm.Merge` | src/App.js:17 | a `setState` update: each field the patch lists takes the patch's value, each field it does not list keeps its value |
| `ContactForm.SuffixTest` | src/App.js:34-40 | the comparison of `email.slice(len - 10, len)` with `@gmail.com`; it never passes an e-mail shorter than 10 characters |
| `ContactForm.SuffixTestIsEndsWithGmail` | src/App.js:34-40 | the handler's slice test passes exactly when the e-mail has at least 10 characters and its last 10 are `@gmail.com` |
| `ContactForm.SuffixTestEdgeCases` | src/App.js:34-40 | e-mails under 10 characters fail; `@gmail.com` itself passes; any text followed by `@gmail.com` passes |
| `ContactForm.FirstFailure` | src/App.js:36-44 | an ordered chain accepts iff every check passes; otherwise it reports the text of a failing check with every earlier check passing |
| `ContactForm.Validate` | src/App.js:36-51 | acceptance holds exactly when name, e-mail and message are non-empty and the slice test passes (the success guard); a rejection carries one of the four fixed texts |
| `ContactForm.ValidateIsFirstFailure` | src/App.js:36-44 | the if / else-if chain equals the first failing check of name, e-mail, e-mail ending, message, in that order |
| `ContactForm.Themess` | src/App.js:66-71 | the follow-up sets the notice to the recorded name followed by " your message has been sent successfully" and changes nothing else |
| `ContactForm.Submit` | src/App.js:31-71 | one submission followed, on success, by its callback: the flag is up afterwards exactly when it was up before or the entry was accepted; the recorded name becomes the submitted name only on acceptance; the notice is empty or built from the recorded name |
| `ContactForm.Shown` | src/App.js:118-122 | the shown text is the notice while the flag is up and the error text otherwise |
| `ContactForm.RejectedSubmission` | src/App.js:36-44 | a rejected submission sets one of the four texts, clears the notice, and leaves inputs, flag and recorded name unchanged |
| `ContactForm.AcceptedSubmission` | src/App.js:46-70 | an accepted submission leaves empty inputs and error, the flag up, the submitted name recorded and the notice built from it |
| `ContactForm.ExactlyOneOutcome` | src/App.js:36-51 | after a submission the error is empty exactly when it was accepted and is one of the four texts exactly when it was rejected |
| `ContactForm.CheckOrder` | src/App.js:36-44 | the four texts in check order; an empty e-mail gets "please enter email id" although it also fails the slice test |
| `ContactForm.SuccessSticks` | src/App.js:36-63 | a submission never lowers the flag; after a success a rejected submission shows the empty text |
| `ContactForm.App.constructor` | src/App.js:5-13 | the mounted state has every text empty and the flag down, and shows the empty text |
| `ContactForm.App.SetState` | src/App.js:17 | a partial update overwrites the listed fields and keeps every other field |
| `ContactForm.App.GetName` | src/App.js:16-18 | the name input's handler sets the name and changes no other field |
| `ContactForm.App.GetEmail` | src/App.js:21-23 | the e-mail input's handler sets the e-mail and changes no other field |
| `ContactForm.App.GetMessage` | src/App.js:26-28 | the message area's handler sets the message and changes no other field |
| `ContactForm.App.GetThemess` | src/App.js:66-71 | the callback sets the notice from the recorded name and changes no other field |
| `ContactForm.App.DisplayMessage` | src/App.js:31-64 | the error chain followed by the separately guarded success update and its callback yields exactly one submission's outcome; the flag never drops |
| `ContactForm.App.Render` | src/App.js:118-122 | the shown text is the notice while the flag is up and the error text otherwise |
| `FormTraces.Step` | src/App.js:16-71 | one user action: typing changes nothing but the three inputs; no action lowers the flag |
| `FormTraces.TypingChangesOneField` | src/App.js:16-28 | typing into an input changes that input only |
| `FormTraces.InitialConsistent` | src/App.js:5-13 | the mounted state satisfies the reachable-state invariant |
| `FormTraces.StepKeepsConsistent` | src/App.js:16-71 | every interaction keeps the invariant: error empty or one of the four texts, no recorded name or notice before a success, a non-empty name after one, notice empty or built from the name |
| `FormTraces.RunKeepsConsistent` | src/App.js:16-71 | any sequence of interactions keeps the invariant |
| `FormTraces.ReachableShown` | src/App.js:118-122 | from the mounted state the shown text is always empty, one of the four error texts, or the notice for a non-empty name |
| `FormTraces.RunKeepsSuccess` | src/App.js:52-63 | once raised, the flag stays up through any later interactions |
| `FormTraces.FlagOutlivesLaterRejection` | src/App.js:36-63 | after an accepted entry, a second empty submission leaves the flag up and the name error set, and shows the empty text |
| `FormTraces.CompleteEntryAccepted` | src/App.js:46-70 | typing a name, a `...@gmail.com` address and a message, then submitting, clears the inputs and shows the notice naming the sender |
| `FormTraces.ConcreteNameMissing` | src/App.js:36-37 | no name, Gmail address and message: "please enter a name" |
| `FormTraces.ConcreteEmailMissing` | src/App.js:38-39 | name, no e-mail, message: "please enter email id" |
| `FormTraces.ConcreteEmailInvalid` | src/App.js:40-41 | name, `bob@yahoo.com`, message: "please enter a valid email id" |
| `FormTraces.ConcreteMessageMissing` | src/App.js:42-43 | name, `bob@gmail.com`, no message: "please enter a message" |

## Left out

- `src/components/Barchart/index.js` is not part of this model. It is tutorial text, not code
  the application runs. It describes request handlers over an external document store, HTTP
  fan-out, date windows and floating-point price buckets.
- The JSX markup, CSS classes and the React component machinery are left out. So is
  `event.preventDefault()`, which only stops the browser's own form submission. The change
  handlers take the new input text as a parameter instead of reading it from an event.
- React's asynchronous batching of `setState` is left out; each update is applied at once.
  The handlers read the fields into locals before updating, and the callback runs after the
  merge it follows, so immediate application gives the same final state.
- JavaScript string lengths count UTF-16 code units, while Dafny strings here are sequences
  of Unicode characters. An e-mail containing characters outside the Basic Multilingual
  Plane would be measured differently; `@gmail.com` itself is unaffected.
