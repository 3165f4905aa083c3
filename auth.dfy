/** The mock authentication flow: `AuthPage` in `App.jsx` and `final.js`, `AuthRoutes` in `t.js`. */
module Auth {
  import opened Options

  /** The `stage` state; `App.jsx` seeds it from a prop, so any other string can occur there. */
  datatype Stage = Login | Signup | Otp | Unlisted(name: string)

  /** The buttons: the main form button, the login/signup link, "Verify & Continue" and "Back". */
  datatype Event = Submit | Toggle | Verify | Back

  /** The stage after an event, and whether the flow completed (`onDone`, `onComplete`, `navigate("/")`). */
  datatype Step = Step(stage: Stage, done: bool)

  predicate Listed(s: Stage) {
    !s.Unlisted?
  }

  /** The login/signup form, rendered for every stage but "otp" and identical in all variants:
      the button completes on "login" and requests a code otherwise, the link swaps login and signup. */
  function FormStep(s: Stage, e: Event): Step {
    match e
    case Submit => if s == Login then Step(s, true) else Step(Otp, false)
    case Toggle => Step(if s == Login then Signup else Login, false)
    case _ => Step(s, false)
  }

  /** `useState(mode)` with the prop defaulting to "login". */
  function AppInitial(mode: Option<string>): Stage {
    match mode
    case None => Login
    case Some(m) =>
      if m == "login" then Login else if m == "signup" then Signup else if m == "otp" then Otp else Unlisted(m)
  }

  /** `App.jsx`: verifying completes and returns to "login"; the OTP screen has no back button. */
  function AppStep(s: Stage, e: Event): Step {
    if s == Otp then (if e == Verify then Step(Login, true) else Step(s, false))
    else FormStep(s, e)
  }

  /** `final.js`: `params.get("mode") || "login"`, then "signup" only for the exact string "signup". */
  function FinalInitial(modeParam: Option<string>): Stage {
    var mode := match modeParam case Some(m) => (if m != "" then m else "login") case None => "login";
    if mode == "signup" then Signup else Login
  }

  /** `final.js`: verifying completes (after a timer) and leaves the stage at "otp". */
  function FinalStep(s: Stage, e: Event): Step {
    if s == Otp then Step(s, e == Verify) else FormStep(s, e)
  }

  /** `t.js` always starts at "login". */
  const TInitial: Stage := Login

  /** `t.js`: verifying navigates home; its OTP screen's back button returns to "signup". */
  function TStep(s: Stage, e: Event): Step {
    if s == Otp then
      (match e case Verify => Step(s, true) case Back => Step(Signup, false) case _ => Step(s, false))
    else FormStep(s, e)
  }

  /** Feeds events to a flow until it completes or the events run out. */
  function Run(step: (Stage, Event) -> Step, s: Stage, events: seq<Event>): Step
    decreases |events|
  {
    if events == [] then Step(s, false)
    else
      var t := step(s, events[0]);
      if t.done then t else Run(step, t.stage, events[1..])
  }

  /** In every variant the flow completes exactly on "Login" from the login form or on
      "Verify & Continue" from the OTP screen. */
  lemma CompletesExactly(s: Stage, e: Event)
    ensures AppStep(s, e).done <==> (s == Login && e == Submit) || (s == Otp && e == Verify)
    ensures FinalStep(s, e).done <==> (s == Login && e == Submit) || (s == Otp && e == Verify)
    ensures TStep(s, e).done <==> (s == Login && e == Submit) || (s == Otp && e == Verify)
  {
  }

  /** The OTP screen is entered only by "Send OTP", from any form stage other than "login". */
  lemma OtpEntry(s: Stage, e: Event)
    requires s != Otp
    ensures AppStep(s, e).stage == Otp <==> s != Login && e == Submit
    ensures FinalStep(s, e).stage == Otp <==> s != Login && e == Submit
    ensures TStep(s, e).stage == Otp <==> s != Login && e == Submit
  {
  }

  /** The link swaps "login" and "signup", so following it twice returns to the start; from any
      other form stage it leads to "login". */
  lemma ToggleSwaps(s: Stage)
    requires s != Otp
    ensures FormStep(s, Toggle).stage == (if s == Login then Signup else Login)
    ensures s == Login || s == Signup ==> FormStep(FormStep(s, Toggle).stage, Toggle).stage == s
  {
  }

  /** `App.jsx` mounts the page without a `mode` prop, so it always opens on "login"; a prop
      outside the three stages shows the signup form, which then leads on to "otp". */
  lemma AppInitialStages(m: string)
    ensures AppInitial(None) == Login
    ensures Listed(AppInitial(Some(m))) <==> m == "login" || m == "signup" || m == "otp"
    ensures !Listed(AppInitial(Some(m))) ==> AppStep(AppInitial(Some(m)), Submit) == Step(Otp, false)
  {
  }

  /** `final.js` opens on "signup" exactly for `?mode=signup` and on "login" otherwise. */
  lemma FinalInitialStages(modeParam: Option<string>)
    ensures FinalInitial(modeParam) == Signup <==> modeParam == Some("signup")
    ensures FinalInitial(modeParam) != Signup ==> FinalInitial(modeParam) == Login
  {
  }

  /** `t.js`: "Back" on the OTP screen returns to the signup form without completing. */
  lemma TBackFromOtp()
    ensures TStep(Otp, Back) == Step(Signup, false)
    ensures AppStep(Otp, Back) == Step(Otp, false) && FinalStep(Otp, Back) == Step(Otp, false)
  {
  }

  /** A flow whose steps never leave the named stages stays among them on any run. */
  lemma {:induction false} RunKeepsListed(step: (Stage, Event) -> Step, s: Stage, events: seq<Event>)
    requires forall t, e :: Listed(t) ==> Listed(step(t, e).stage)
    requires Listed(s)
    ensures Listed(Run(step, s, events).stage)
    decreases |events|
  {
    if events != [] && !step(s, events[0]).done {
      RunKeepsListed(step, step(s, events[0]).stage, events[1..]);
    }
  }

  /** Starting where each variant starts, the stage is always one of "login", "signup" and "otp". */
  lemma RunsStayListed(modeParam: Option<string>, events: seq<Event>)
    ensures Listed(Run(AppStep, AppInitial(None), events).stage)
    ensures Listed(Run(FinalStep, FinalInitial(modeParam), events).stage)
    ensures Listed(Run(TStep, TInitial, events).stage)
  {
    RunKeepsListed(AppStep, AppInitial(None), events);
    RunKeepsListed(FinalStep, FinalInitial(modeParam), events);
    RunKeepsListed(TStep, TInitial, events);
  }

  /** Without ever pressing the form button, a flow that starts on a form never completes. */
  lemma {:induction false} NoSubmitNoCompletion(step: (Stage, Event) -> Step, s: Stage, events: seq<Event>)
    requires forall t, e :: t != Otp && e != Submit ==> step(t, e).stage != Otp && !step(t, e).done
    requires s != Otp && Submit !in events
    ensures !Run(step, s, events).done && Run(step, s, events).stage != Otp
    decreases |events|
  {
    if events != [] {
      assert events[0] != Submit;
      NoSubmitNoCompletion(step, step(s, events[0]).stage, events[1..]);
    }
  }

  /** So in every variant, completion needs "Login" or "Send OTP" first. */
  lemma CompletionNeedsSubmit(modeParam: Option<string>, events: seq<Event>)
    requires Submit !in events
    ensures !Run(AppStep, AppInitial(None), events).done
    ensures !Run(FinalStep, FinalInitial(modeParam), events).done
    ensures !Run(TStep, TInitial, events).done
  {
    NoSubmitNoCompletion(AppStep, AppInitial(None), events);
    NoSubmitNoCompletion(FinalStep, FinalInitial(modeParam), events);
    NoSubmitNoCompletion(TStep, TInitial, events);
  }

  /** The sign-up path of `t.js`, including a detour back from the OTP screen. */
  lemma TSignupScenario()
    ensures Run(TStep, TInitial, [Toggle, Submit, Back, Submit, Verify]) == Step(Otp, true)
  {
  }
}
