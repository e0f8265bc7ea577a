/**
 * The contact form's status machine (App.tsx): idle, loading, success and
 * error, the three text fields, the requests to the form relay still in
 * flight and the 5 second reset timers still armed. The relay request is
 * abstracted to its three-way outcome, and each timer to the event of its
 * firing.
 */
module ContactForm {

  datatype Status = Idle | Loading | Success | Error

  /** The values of the form's three inputs. */
  datatype Fields = Fields(name: string, email: string, message: string)

  /** What `form.reset()` leaves: every input empty. */
  const Blank: Fields := Fields("", "", "")

  /** How the `fetch` to the relay settles. */
  datatype Outcome =
    | Ok      // resolved with `response.ok`
    | NotOk   // resolved with a non-2xx status
    | Threw   // rejected (network failure, CORS, ...)

  datatype Event =
    | Edit(fields: Fields)        // the user types into the inputs
    | Submit(emailAccepted: bool) // the submit button; whether the browser accepts the email's format
    | Respond(outcome: Outcome)   // a request in flight settles
    | TimerFired                  // an armed 5 second timer runs
    | SendAnother                 // the "Send Another Message" button

  /** The contact section's state. */
  datatype Form = Form(status: Status, fields: Fields, inFlight: nat, timers: nat)

  /** State on mount. */
  const Initial: Form := Form(Idle, Blank, 0, 0)

  /** The form (rather than the thank-you panel) is rendered. */
  predicate FormShown(s: Form) {
    s.status != Success
  }

  /** The form is rendered and its submit button is not disabled. */
  predicate SubmitEnabled(s: Form) {
    s.status == Idle || s.status == Error
  }

  /** The browser's `required` and `type="email"` checks pass. */
  predicate Accepted(f: Fields, emailAccepted: bool) {
    f.name != "" && f.email != "" && f.message != "" && emailAccepted
  }

  /**
   * One event. Events that cannot reach the page in the given state (a click
   * on a control that is not rendered or is disabled, a response or a timer
   * with none outstanding) leave the state as it is.
   */
  function Next(s: Form, e: Event): Form {
    match e
    case Edit(f) =>
      if FormShown(s) then s.(fields := f) else s
    case Submit(emailAccepted) =>
      if SubmitEnabled(s) && Accepted(s.fields, emailAccepted)
      then s.(status := Loading, inFlight := s.inFlight + 1)
      else s
    case Respond(outcome) =>
      if s.inFlight == 0 then s
      else if outcome == Ok
      then s.(status := Success, fields := Blank, inFlight := s.inFlight - 1, timers := s.timers + 1)
      else s.(status := Error, inFlight := s.inFlight - 1)
    case TimerFired =>
      if s.timers == 0 then s else s.(status := Idle, timers := s.timers - 1)
    case SendAnother =>
      if s.status == Success then s.(status := Idle) else s
  }

  /** The state after a sequence of events. */
  function Run(s: Form, es: seq<Event>): Form
    decreases |es|
  {
    if es == [] then s else Run(Next(s, es[0]), es[1..])
  }

  /**
   * A submission goes through exactly when the form is idle or in error and
   * the browser accepts the fields; it then shows loading, keeps the fields
   * and puts one more request in flight. From loading (button disabled) or
   * success (form not rendered) a submit does nothing.
   */
  lemma SubmitOnlyFromIdleOrError(s: Form, emailAccepted: bool)
    ensures Next(s, Submit(emailAccepted)) != s <==> SubmitEnabled(s) && Accepted(s.fields, emailAccepted)
    ensures Next(s, Submit(emailAccepted)) != s ==>
              Next(s, Submit(emailAccepted)) == s.(status := Loading, inFlight := s.inFlight + 1)
    ensures s.status == Loading || s.status == Success ==> Next(s, Submit(emailAccepted)) == s
  {
  }

  /**
   * A response with `ok` gives success and clears the fields; a non-ok
   * response or a thrown error gives error and leaves the fields intact.
   */
  lemma ResponseOutcome(s: Form, outcome: Outcome)
    requires s.inFlight > 0
    ensures var t := Next(s, Respond(outcome));
            t.inFlight == s.inFlight - 1 &&
            (outcome == Ok ==> t.status == Success && t.fields == Blank && t.timers == s.timers + 1) &&
            (outcome != Ok ==> t.status == Error && t.fields == s.fields && t.timers == s.timers)
  {
  }

  /**
   * Success is left by "send another" or a timer, both giving idle, or by
   * an older request still in flight that fails, which gives error; a timer
   * gives idle whatever the status was.
   */
  lemma LeavingSuccess(s: Form, e: Event)
    ensures s.status == Success && Next(s, e).status != Success ==>
              (e == SendAnother || e == TimerFired || e.Respond?) &&
              (e.Respond? ==> Next(s, e).status == Error)
    ensures s.status == Success ==> Next(s, SendAnother) == s.(status := Idle)
    ensures s.timers > 0 ==> Next(s, TimerFired).status == Idle
  {
  }

  /**
   * Error is left by a new submission, by a timer armed by an earlier
   * success that fires late, or by the success of an older request still in
   * flight. The last cannot happen while `SingleFlight` holds (in error,
   * nothing is then in flight), which `SingleFlightWithoutStaleTimer`
   * guarantees as long as no timer fires during loading.
   */
  lemma LeavingError(s: Form, e: Event)
    requires s.status == Error && Next(s, e).status != Error
    ensures (e.Submit? && Next(s, e).status == Loading) ||
            (e == TimerFired && s.timers > 0 && Next(s, e).status == Idle) ||
            (e == Respond(Ok) && s.inFlight > 0 && Next(s, e).status == Success)
    ensures SingleFlight(s) ==> !e.Respond?
  {
  }

  /**
   * Submit from idle, succeed, click "send another", submit again and fail:
   * the first success's timer is still armed, and when it fires the error
   * is replaced by idle.
   */
  lemma StaleTimerClearsError(f: Fields)
    requires Accepted(f, true)
    ensures var s := Run(Initial.(fields := f),
                         [Submit(true), Respond(Ok), SendAnother, Edit(f), Submit(true), Respond(Threw)]);
            s.status == Error && Next(s, TimerFired).status == Idle
  {
    var s0 := Initial.(fields := f);
    var s6 := Form(Error, f, 0, 1);
    calc {
      Run(s0, [Submit(true), Respond(Ok), SendAnother, Edit(f), Submit(true), Respond(Threw)]);
      Run(Form(Loading, f, 1, 0), [Respond(Ok), SendAnother, Edit(f), Submit(true), Respond(Threw)]);
      Run(Form(Success, Blank, 0, 1), [SendAnother, Edit(f), Submit(true), Respond(Threw)]);
      Run(Form(Idle, Blank, 0, 1), [Edit(f), Submit(true), Respond(Threw)]);
      Run(Form(Idle, f, 0, 1), [Submit(true), Respond(Threw)]);
      Run(Form(Loading, f, 1, 1), [Respond(Threw)]);
      s6;
    }
  }

  /**
   * What every reachable state satisfies: loading has a request in flight,
   * and success has a timer armed and blank fields.
   */
  predicate Inv(s: Form) {
    (s.status == Loading ==> s.inFlight > 0) &&
    (s.status == Success ==> s.timers > 0 && s.fields == Blank)
  }

  /** Every event keeps the invariant. */
  lemma NextKeepsInv(s: Form, e: Event)
    requires Inv(s)
    ensures Inv(Next(s, e))
  {
  }

  /** Every state reachable from mount satisfies the invariant. */
  lemma {:induction false} RunKeepsInv(s: Form, es: seq<Event>)
    requires Inv(s)
    ensures Inv(Run(s, es))
    decreases |es|
  {
    if es != [] {
      NextKeepsInv(s, es[0]);
      RunKeepsInv(Next(s, es[0]), es[1..]);
    }
  }

  /** At most one request in flight, exactly while loading. */
  predicate SingleFlight(s: Form) {
    s.inFlight <= 1 && (s.status == Loading <==> s.inFlight == 1)
  }

  /** No timer fires while a request is loading anywhere in `es`. */
  predicate NoTimerWhileLoading(s: Form, es: seq<Event>)
    decreases |es|
  {
    es == [] ||
    (!(es[0] == TimerFired && s.status == Loading) && NoTimerWhileLoading(Next(s, es[0]), es[1..]))
  }

  /**
   * The disabled button prevents overlapping submissions only as long as no
   * stale timer resets a loading form to idle.
   */
  lemma {:induction false} SingleFlightWithoutStaleTimer(s: Form, es: seq<Event>)
    requires SingleFlight(s) && NoTimerWhileLoading(s, es)
    ensures SingleFlight(Run(s, es))
    decreases |es|
  {
    if es != [] {
      assert SingleFlight(Next(s, es[0]));
      SingleFlightWithoutStaleTimer(Next(s, es[0]), es[1..]);
    }
  }

  /**
   * A stale timer that fires while a later submission is loading re-enables
   * the form, and a second submission then puts two requests in flight.
   */
  lemma StaleTimerAllowsOverlap(f: Fields)
    requires Accepted(f, true)
    ensures var s := Run(Initial.(fields := f),
                         [Submit(true), Respond(Ok), SendAnother, Edit(f), Submit(true), TimerFired, Submit(true)]);
            s.status == Loading && s.inFlight == 2
  {
    var s0 := Initial.(fields := f);
    calc {
      Run(s0, [Submit(true), Respond(Ok), SendAnother, Edit(f), Submit(true), TimerFired, Submit(true)]);
      Run(Form(Loading, f, 1, 0), [Respond(Ok), SendAnother, Edit(f), Submit(true), TimerFired, Submit(true)]);
      Run(Form(Success, Blank, 0, 1), [SendAnother, Edit(f), Submit(true), TimerFired, Submit(true)]);
      Run(Form(Idle, Blank, 0, 1), [Edit(f), Submit(true), TimerFired, Submit(true)]);
      Run(Form(Idle, f, 0, 1), [Submit(true), TimerFired, Submit(true)]);
      Run(Form(Loading, f, 1, 1), [TimerFired, Submit(true)]);
      Run(Form(Idle, f, 1, 0), [Submit(true)]);
      Form(Loading, f, 2, 0);
    }
  }

  /** The `App` component's contact state, updated in place by its handlers. */
  class ContactSection {
    var status: Status
    var fields: Fields
    var inFlight: nat
    var timers: nat

    function State(): Form
      reads this
    {
      Form(status, fields, inFlight, timers)
    }

    ghost predicate Valid()
      reads this
    {
      Inv(State())
    }

    /** Mount: idle, empty inputs, nothing outstanding. */
    constructor ()
      ensures Valid() && State() == Initial
    {
      status, fields, inFlight, timers := Idle, Blank, 0, 0;
    }

    /** The user types into the inputs; they exist only while the form is shown. */
    method Edit(f: Fields)
      requires Valid()
      modifies this
      ensures Valid() && State() == Next(old(State()), Event.Edit(f))
    {
      if status != Success {
        fields := f;
      }
    }

    /**
     * `handleFormSubmit` up to the `await`: the browser delivers the submit
     * event only when the button is enabled and the fields pass its checks;
     * the handler then shows loading and sends the request.
     */
    method HandleSubmit(emailAccepted: bool)
      requires Valid()
      modifies this
      ensures Valid() && State() == Next(old(State()), Submit(emailAccepted))
    {
      var enabled := status == Idle || status == Error;
      if enabled && fields.name != "" && fields.email != "" && fields.message != "" && emailAccepted {
        status := Loading;
        inFlight := inFlight + 1;
      }
    }

    /**
     * `handleFormSubmit` after the `await`: success resets the form and arms
     * the 5 second timer; a non-ok response or a thrown error shows error.
     */
    method OnResponse(outcome: Outcome)
      requires Valid() && inFlight > 0
      modifies this
      ensures Valid() && State() == Next(old(State()), Respond(outcome))
    {
      inFlight := inFlight - 1;
      if outcome == Ok {
        status := Success;
        fields := Blank;
        timers := timers + 1;
      } else {
        status := Error;
      }
    }

    /** `setTimeout(() => setFormStatus('idle'), 5000)` firing. */
    method OnTimer()
      requires Valid() && timers > 0
      modifies this
      ensures Valid() && State() == Next(old(State()), TimerFired)
    {
      timers := timers - 1;
      status := Idle;
    }

    /** The "Send Another Message" button, rendered only on success. */
    method OnSendAnother()
      requires Valid()
      modifies this
      ensures Valid() && State() == Next(old(State()), SendAnother)
    {
      if status == Success {
        status := Idle;
      }
    }
  }
}
