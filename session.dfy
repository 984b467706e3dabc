/**
 * The device-session flags of the fingerprint wrapper, `isOpening` (the device is
 * open) and `isWorking` (an enroll or generate operation is in flight), and how
 * every command and every driver event changes them. The wrapper class is proved
 * to follow `Next`; the lemmas here say what that means over whole histories.
 */
module Session {

  datatype Flags = Flags(opening: bool, working: bool)

  /** Both flags start false. */
  const Initial := Flags(false, false)

  /** The `arg1` of a device message. */
  datatype DeviceStatus = Attached | Detached | DevOk | OtherCode(code: int)

  /**
   * A message delivered by the driver, keyed by its `what` code; the `arg1` of
   * the capture, template-generated and template-enrolled messages is kept
   * because only the value 1 means success.
   */
  datatype Event =
    | Device(status: DeviceStatus)
    | Place
    | Lift
    | Capture(arg1: int)
    | GenChar(arg1: int)
    | Enrolled(arg1: int)
    | NewImage
    | Timeout
    | Other

  /**
   * What reaches the session: a caller command or a driver event. `Open` carries
   * whether `openDevice` reported success.
   */
  datatype Input =
    | Open(succeeded: bool)
    | Close
    | EnrollRequest
    | GenerateRequest
    | Pause
    | Resume
    | Match
    | Deliver(event: Event)
  {
    /** The two commands that start an operation. */
    predicate IsRequest()
    {
      EnrollRequest? || GenerateRequest?
    }

    /** The events that end an operation, successfully or not. */
    predicate IsTerminal()
    {
      Deliver? && (event.Capture? || event.GenChar? || event.Enrolled? || event.Timeout?)
    }

    /** Inputs after which no operation is in flight, whatever the state before. */
    predicate ClearsWork()
    {
      || IsTerminal()
      || Close?
      || (Open? && succeeded)
      || (Deliver? && event.Device? && (event.status.Detached? || event.status.DevOk?))
    }
  }

  /** Busy implies open: the state "closed but busy" never occurs. */
  predicate Inv(f: Flags)
  {
    f.working ==> f.opening
  }

  /** The guard of `enrollTemplate` and `generateTemplate`. */
  predicate Admits(f: Flags)
  {
    f.opening && !f.working
  }

  /** The flags after one input. */
  function Next(f: Flags, i: Input): Flags
  {
    match i
    case Open(ok) => if ok then Flags(true, false) else f
    case Close => Flags(false, false)
    case EnrollRequest | GenerateRequest => if Admits(f) then f.(working := true) else f
    case Pause | Resume | Match => f
    case Deliver(e) =>
      match e
      case Device(Detached) => Flags(false, false)
      case Device(DevOk) => Flags(true, false)
      case Device(_) => f
      case Capture(_) | GenChar(_) | Enrolled(_) | Timeout => f.(working := false)
      case Place | Lift | NewImage | Other => f
  }

  /** The flags after a whole history of inputs, starting from `Initial`. */
  function Run(t: seq<Input>): Flags
  {
    if t == [] then Initial else Next(Run(t[..|t| - 1]), t[|t| - 1])
  }

  lemma RunSnoc(t: seq<Input>, x: Input)
    ensures Run(t + [x]) == Next(Run(t), x)
  {
    assert (t + [x])[..|t|] == t;
  }

  // ---------------------------------------------------------------------------
  // One step

  lemma NextPreservesInv(f: Flags, i: Input)
    requires Inv(f)
    ensures Inv(Next(f, i))
  {
  }

  /**
   * A request is issued exactly when the device is open and idle; it then marks
   * the session busy, and otherwise nothing changes.
   */
  lemma RequestGuard(f: Flags, i: Input)
    requires i.IsRequest()
    ensures Admits(f) ==> Next(f, i) == Flags(true, true)
    ensures !Admits(f) ==> Next(f, i) == f
  {
  }

  /** Closing from any state leaves the session closed and idle; closing again changes nothing. */
  lemma CloseIdempotent(f: Flags)
    ensures Next(f, Close) == Flags(false, false)
    ensures Next(Next(f, Close), Close) == Next(f, Close)
  {
  }

  /** A detach forces the session closed from any state; DEV_OK makes it open and idle. */
  lemma DeviceEvents(f: Flags, code: int)
    ensures Next(f, Deliver(Device(Detached))) == Flags(false, false)
    ensures Next(f, Deliver(Device(DevOk))) == Flags(true, false)
    ensures Next(f, Deliver(Device(Attached))) == f
    ensures Next(f, Deliver(Device(OtherCode(code)))) == f
  {
  }

  /**
   * A terminal event clears `working` whatever its outcome and never touches
   * `opening`; the prompts and the image event leave both flags alone.
   */
  lemma EventsAndWork(f: Flags, e: Event)
    ensures Deliver(e).IsTerminal() ==> Next(f, Deliver(e)) == Flags(f.opening, false)
    ensures (e.Place? || e.Lift? || e.NewImage? || e.Other?) ==> Next(f, Deliver(e)) == f
  {
  }

  /**
   * An input that does not clear the work flag never clears it: `working` can
   * only go from true to false through one of the clearing inputs.
   */
  lemma OnlyClearingInputsEndWork(f: Flags, i: Input)
    requires f.working && !i.ClearsWork()
    ensures Next(f, i).working
  {
  }

  // ---------------------------------------------------------------------------
  // Whole histories

  /** Starting from both flags false, every history keeps busy-implies-open. */
  lemma {:induction false} ReachableInvariant(t: seq<Input>)
    ensures Inv(Run(t))
  {
    if t != [] {
      ReachableInvariant(t[..|t| - 1]);
      NextPreservesInv(Run(t[..|t| - 1]), t[|t| - 1]);
    }
  }

  /** The request at position `k` was accepted: the session was open and idle just before it. */
  predicate Accepted(t: seq<Input>, k: int)
    requires 0 <= k < |t|
  {
    t[k].IsRequest() && Admits(Run(t[..k]))
  }

  /** The request at position `k` was accepted and nothing after it has ended it. */
  predicate Pending(t: seq<Input>, k: int)
    requires 0 <= k < |t|
  {
    Accepted(t, k) && forall j :: k < j < |t| ==> !t[j].ClearsWork()
  }

  /**
   * An operation is in flight exactly when some accepted enroll or generate
   * request has not yet been followed by its terminal event, a close, a detach
   * or a fresh open.
   */
  lemma {:induction false} BusyIffPending(t: seq<Input>)
    ensures Run(t).working <==> exists k :: 0 <= k < |t| && Pending(t, k)
  {
    if t != [] {
      var u, x := t[..|t| - 1], t[|t| - 1];
      assert t == u + [x];
      BusyIffPending(u);
      forall k | 0 <= k < |u|
        ensures Pending(t, k) <==> Pending(u, k) && !x.ClearsWork()
      {
        assert t[..k] == u[..k];
      }
      assert t[..|u|] == u;
      if x.ClearsWork() {
        assert !Pending(t, |u|);
      } else if x.IsRequest() && Admits(Run(u)) {
        assert Pending(t, |u|);
      } else {
        assert !Pending(t, |u|);
        assert Run(t).working == Run(u).working;
      }
    }
  }

  // ---------------------------------------------------------------------------
  // The three-state view

  datatype Phase = Closed | OpenIdle | OpenBusy

  function PhaseOf(f: Flags): Phase
    requires Inv(f)
  {
    if !f.opening then Closed else if f.working then OpenBusy else OpenIdle
  }

  function FlagsOf(p: Phase): Flags
  {
    match p
    case Closed => Flags(false, false)
    case OpenIdle => Flags(true, false)
    case OpenBusy => Flags(true, true)
  }

  /** Under the invariant the two flags and the three phases are in one-to-one correspondence. */
  lemma PhaseBijection(f: Flags, p: Phase)
    ensures Inv(FlagsOf(p)) && PhaseOf(FlagsOf(p)) == p
    ensures Inv(f) ==> FlagsOf(PhaseOf(f)) == f
  {
  }

  /**
   * The session as a three-state machine: a successful open or DEV_OK leads to
   * OpenIdle, a request leads from OpenIdle to OpenBusy, a terminal event from
   * OpenBusy back to OpenIdle, and a close or detach from anywhere to Closed.
   */
  function NextPhase(p: Phase, i: Input): Phase
  {
    match i
    case Open(ok) => if ok then OpenIdle else p
    case Close => Closed
    case EnrollRequest | GenerateRequest => if p == OpenIdle then OpenBusy else p
    case Pause | Resume | Match => p
    case Deliver(e) =>
      if e == Device(Detached) then Closed
      else if e == Device(DevOk) then OpenIdle
      else if i.IsTerminal() && p == OpenBusy then OpenIdle
      else p
  }

  function RunPhase(t: seq<Input>): Phase
  {
    if t == [] then Closed else NextPhase(RunPhase(t[..|t| - 1]), t[|t| - 1])
  }

  /** One step of the flags agrees with one step of the three-state machine. */
  lemma StepAgrees(f: Flags, i: Input)
    requires Inv(f)
    ensures Inv(Next(f, i)) && PhaseOf(Next(f, i)) == NextPhase(PhaseOf(f), i)
  {
  }

  /** Over any history the flags and the three-state machine agree. */
  lemma {:induction false} RunAgrees(t: seq<Input>)
    ensures Inv(Run(t)) && PhaseOf(Run(t)) == RunPhase(t)
  {
    if t != [] {
      RunAgrees(t[..|t| - 1]);
      StepAgrees(Run(t[..|t| - 1]), t[|t| - 1]);
    }
  }
}
