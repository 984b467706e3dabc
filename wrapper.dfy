/**
 * `FingerprintSdkWrapper`: the controller between the caller's method channel and
 * the vendor's USB fingerprint reader. It keeps the two session flags, the
 * reference and sample template buffers with their size cells, and forwards
 * commands to the driver; driver events come back through `HandleMessage`.
 *
 * The driver is a closed collaborator. What it returns (the open result code, the
 * template bytes and size it writes, the match score) enters as parameters, and
 * what the wrapper asks of it is recorded, in order, in `calls`. Everything sent
 * to the caller over the channel is recorded, in order, in `sent`.
 */
module SdkWrapper {
  import opened Templates
  import opened StatusText
  import opened Session
  import opened Messages

  class FingerprintSdkWrapper {
    /** Whether `fpModule` holds a driver handle. */
    const hasModule: bool
    var isOpening: bool
    var isWorking: bool
    const refData: array<byte>
    var refSize: nat
    const matData: array<byte>
    var matSize: nat
    var calls: seq<UsbCall>
    var sent: seq<Notification>
    /** Every command and event this wrapper has seen, oldest first. */
    ghost var history: seq<Input>

    ghost predicate Valid()
      reads this
    {
      && refData.Length == TemplateSize
      && matData.Length == TemplateSize
      && refData != matData
      && Current() == Run(history)
    }

    /** The session flags. */
    function Current(): Flags
      reads this
    {
      Flags(isOpening, isWorking)
    }

    /** `fpModule?.X()`: the call is made only when there is a driver handle. */
    function IfPresent(cs: seq<UsbCall>): seq<UsbCall>
      reads this
    {
      if hasModule then cs else []
    }

    /** The template buffers and their size cells. */
    function Contents(): Buffers
      reads this, refData, matData
    {
      Buffers(refData[..], refSize, matData[..], matSize)
    }

    /** The flags of a valid wrapper never say "closed but busy". */
    lemma ValidInv()
      requires Valid()
      ensures Inv(Current())
    {
      ReachableInvariant(history);
    }

    /**
     * The wrapper is busy exactly when an enroll or generate request it accepted
     * has not yet been ended by a terminal event, a close, a detach or an open.
     */
    lemma BusyMeansPending()
      requires Valid()
      ensures isWorking <==> exists k :: 0 <= k < |history| && Pending(history, k)
    {
      BusyIffPending(history);
    }

    constructor (present: bool)
      ensures Valid() && fresh(refData) && fresh(matData)
      ensures hasModule == present && history == [] && Current() == Initial
      ensures calls == (if present then [UsbCall.InitMatch, UsbCall.SetContextHandler] else [])
      ensures sent == []
      ensures refData[..] == Zeros(TemplateSize) && refSize == 0
      ensures matData[..] == Zeros(TemplateSize) && matSize == 0
    {
      hasModule := present;
      isOpening, isWorking := false, false;
      refData := new byte[TemplateSize](_ => 0);
      matData := new byte[TemplateSize](_ => 0);
      refSize, matSize := 0, 0;
      calls := if present then [UsbCall.InitMatch, UsbCall.SetContextHandler] else [];
      sent := [];
      history := [];
    }

    /** Appends `i` to the history after the flags have taken their new values. */
    ghost method Record(i: Input)
      requires Current() == Next(Run(history), i)
      modifies this`history
      ensures history == old(history) + [i] && Current() == Run(history)
    {
      RunSnoc(history, i);
      history := history + [i];
    }

    /**
     * `openDevice`: with a handle, asks the driver to open the device; result 0
     * opens an idle session, any other result requests permission instead.
     */
    method OpenDevice(openResult: int) returns (ok: bool)
      requires Valid()
      modifies this`isOpening, this`isWorking, this`calls, this`sent, this`history
      ensures Valid() && history == old(history) + [Open(ok)]
      ensures ok <==> hasModule && openResult == 0
      ensures ok ==> Current() == Flags(true, false)
      ensures !ok ==> Current() == old(Current())
      ensures !hasModule ==> calls == old(calls) && sent == old(sent)
      ensures hasModule && ok ==>
        calls == old(calls) + [UsbCall.OpenDevice] && sent == old(sent) + [Status(OpenOkText)]
      ensures hasModule && !ok ==>
        && calls == old(calls) + [UsbCall.OpenDevice, UsbCall.RequestPermission]
        && sent == old(sent) + [Status(PermissionText)]
    {
      if !hasModule {
        ok := false;
        Record(Open(ok));
        return;
      }
      calls := calls + [UsbCall.OpenDevice];
      if openResult == 0 {
        isOpening, isWorking := true, false;
        sent := sent + [Status(OpenOkText)];
        ok := true;
      } else {
        calls := calls + [UsbCall.RequestPermission];
        sent := sent + [Status(PermissionText)];
        ok := false;
      }
      Record(Open(ok));
    }

    /** `closeDevice`: from any state, closes the driver and leaves the session closed and idle. */
    method CloseDevice()
      requires Valid()
      modifies this`isOpening, this`isWorking, this`calls, this`sent, this`history
      ensures Valid() && history == old(history) + [Close]
      ensures Current() == Flags(false, false)
      ensures calls == old(calls) + IfPresent([UsbCall.CloseDevice])
      ensures sent == old(sent) + [Status(CloseText)]
    {
      calls := calls + IfPresent([UsbCall.CloseDevice]);
      isOpening, isWorking := false, false;
      sent := sent + [Status(CloseText)];
      Record(Close);
    }

    /**
     * `enrollTemplate`: dropped unless the session is open and idle; otherwise asks
     * the driver to enroll and marks the session busy. Nothing is ever sent.
     */
    method EnrollTemplate()
      requires Valid()
      modifies this`isWorking, this`calls, this`history
      ensures Valid() && history == old(history) + [EnrollRequest]
      ensures sent == old(sent)
      ensures Admits(old(Current())) ==>
        Current() == Flags(true, true) && calls == old(calls) + IfPresent([UsbCall.EnrolTemplate])
      ensures !Admits(old(Current())) ==> Current() == old(Current()) && calls == old(calls)
    {
      if !isOpening || isWorking {
        Record(EnrollRequest);
        return;
      }
      calls := calls + IfPresent([UsbCall.EnrolTemplate]);
      isWorking := true;
      Record(EnrollRequest);
    }

    /** `generateTemplate`: the same guard, asking the driver for a sample to match. */
    method GenerateTemplate()
      requires Valid()
      modifies this`isWorking, this`calls, this`history
      ensures Valid() && history == old(history) + [GenerateRequest]
      ensures sent == old(sent)
      ensures Admits(old(Current())) ==>
        Current() == Flags(true, true) && calls == old(calls) + IfPresent([UsbCall.GenerateTemplate])
      ensures !Admits(old(Current())) ==> Current() == old(Current()) && calls == old(calls)
    {
      if !isOpening || isWorking {
        Record(GenerateRequest);
        return;
      }
      calls := calls + IfPresent([UsbCall.GenerateTemplate]);
      isWorking := true;
      Record(GenerateRequest);
    }

    /** `pauseUnregister`: forwarded to the driver; the flags stay as they are. */
    method PauseUnregister()
      requires Valid()
      modifies this`calls, this`history
      ensures Valid() && history == old(history) + [Pause]
      ensures calls == old(calls) + IfPresent([UsbCall.PauseUnRegister])
    {
      calls := calls + IfPresent([UsbCall.PauseUnRegister]);
      Record(Pause);
    }

    /** `resumeRegister`: forwarded to the driver; the flags stay as they are. */
    method ResumeRegister()
      requires Valid()
      modifies this`calls, this`history
      ensures Valid() && history == old(history) + [Resume]
      ensures calls == old(calls) + IfPresent([UsbCall.ResumeRegister])
    {
      calls := calls + IfPresent([UsbCall.ResumeRegister]);
      Record(Resume);
    }

    /**
     * `matchTemplates`: -1 without a handle; otherwise both templates are copied
     * into fresh 512-byte buffers, cut or zero-padded, and the driver's score for
     * those buffers is returned. The inputs are left as they were.
     */
    method MatchTemplates(template1: array<byte>, template2: array<byte>, score: int) returns (r: int)
      requires Valid()
      modifies this`calls, this`history
      ensures Valid() && history == old(history) + [Match]
      ensures template1[..] == old(template1[..]) && template2[..] == old(template2[..])
      ensures !hasModule ==> r == -1 && calls == old(calls)
      ensures hasModule ==>
        && r == score
        && calls == old(calls) + [UsbCall.MatchTemplate(CopyOf(template1[..], TemplateSize), CopyOf(template2[..], TemplateSize))]
    {
      if !hasModule {
        Record(Match);
        return -1;
      }
      var buf1 := Fit(template1);
      var buf2 := Fit(template2);
      calls := calls + [UsbCall.MatchTemplate(buf1[..], buf2[..])];
      r := score;
      Record(Match);
    }

    /**
     * `handleMessage`: one driver message. `fill` is what the driver writes when a
     * template is fetched and `score` what its matcher returns; both matter only
     * for successful enroll and generate messages.
     */
    method HandleMessage(e: Event, fill: TemplateFill, score: int)
      requires Valid()
      requires |fill.bytes| == TemplateSize
      modifies this`isOpening, this`isWorking, this`calls, this`sent, this`history
      modifies this`refSize, this`matSize, refData, matData
      ensures Valid() && history == old(history) + [Deliver(e)]
      ensures Current() == Next(old(Current()), Deliver(e))
      ensures Contents() == Refill(old(Contents()), e, hasModule, fill)
      ensures calls == old(calls) + MessageEffect(e, hasModule, old(Contents()), fill, score).calls
      ensures sent == old(sent) + MessageEffect(e, hasModule, old(Contents()), fill, score).sent
    {
      match e {
        case Device(status) => DeviceMessage(status);
        case GenChar(arg1) => GenCharMessage(arg1, fill, score);
        case Enrolled(arg1) => EnrolledMessage(arg1, fill);
        case _ => SimpleMessage(e);
      }
      Record(Deliver(e));
    }

    /** The device messages (`FPM_DEVICE`). */
    method DeviceMessage(status: DeviceStatus)
      modifies this`isOpening, this`isWorking, this`calls, this`sent
      ensures Current() == Next(old(Current()), Deliver(Device(status)))
      ensures calls == old(calls) + DeviceEffect(status, hasModule).calls
      ensures sent == old(sent) + DeviceEffect(status, hasModule).sent
    {
      match status {
        case Attached =>
        case Detached =>
          isOpening, isWorking := false, false;
          calls := calls + IfPresent([UsbCall.CloseDevice]);
          sent := sent + [Status(DetachedText)];
        case DevOk =>
          isOpening, isWorking := true, false;
          sent := sent + [Status(OpenOkText)];
        case OtherCode(_) =>
          sent := sent + [Status(OpenFailText)];
      }
    }

    /** The template-generated message (`FPM_GENCHAR`). */
    method GenCharMessage(arg1: int, fill: TemplateFill, score: int)
      requires matData.Length == |fill.bytes| && refData != matData
      modifies this`isWorking, this`calls, this`sent, this`matSize, matData
      ensures Current() == Next(old(Current()), Deliver(GenChar(arg1)))
      ensures Contents() == Refill(old(Contents()), GenChar(arg1), hasModule, fill)
      ensures calls == old(calls) + GenCharEffect(arg1, hasModule, old(Contents()), fill, score).calls
      ensures sent == old(sent) + GenCharEffect(arg1, hasModule, old(Contents()), fill, score).sent
    {
      if arg1 == 1 {
        var out := [Status(GenerateOkText)];
        var matchResult := -1;
        if hasModule {
          calls := calls + [UsbCall.GetTemplateByGen];
          WriteTemplate(matData, fill.bytes);
          matSize := fill.size;
          calls := calls + [UsbCall.MatchTemplate(refData[..], matData[..])];
          matchResult := score;
        }
        out := out + [Status(MatchLine(matchResult)), Template(CopyOf(matData[..], matSize))];
        sent := sent + out;
      } else {
        sent := sent + [Status(GenerateFailText)];
      }
      isWorking := false;
    }

    /** The template-enrolled message (`FPM_ENRFPT`). */
    method EnrolledMessage(arg1: int, fill: TemplateFill)
      requires refData.Length == |fill.bytes| && refData != matData
      modifies this`isWorking, this`calls, this`sent, this`refSize, refData
      ensures Current() == Next(old(Current()), Deliver(Enrolled(arg1)))
      ensures Contents() == Refill(old(Contents()), Enrolled(arg1), hasModule, fill)
      ensures calls == old(calls) + EnrolledEffect(arg1, hasModule, old(Contents()), fill).calls
      ensures sent == old(sent) + EnrolledEffect(arg1, hasModule, old(Contents()), fill).sent
    {
      if arg1 == 1 {
        sent := sent + [Status(EnrollOkText)];
        if hasModule {
          calls := calls + [UsbCall.GetTemplateByEnl];
          WriteTemplate(refData, fill.bytes);
          refSize := fill.size;
        }
        sent := sent + [Template(CopyOf(refData[..], refSize))];
      } else {
        sent := sent + [Status(EnrollFailText)];
      }
      isWorking := false;
    }

    /** The one-line arms: finger prompts, capture outcome, new image, timeout and unknown messages. */
    method SimpleMessage(e: Event)
      requires !e.Device? && !e.GenChar? && !e.Enrolled?
      modifies this`isWorking, this`calls, this`sent
      ensures Current() == Next(old(Current()), Deliver(e))
      ensures calls == old(calls) + SimpleEffect(e, hasModule).calls
      ensures sent == old(sent) + SimpleEffect(e, hasModule).sent
    {
      match e {
        case Place =>
          sent := sent + [Status(PlaceText)];
        case Lift =>
          sent := sent + [Status(LiftText)];
        case Capture(arg1) =>
          if arg1 == 1 {
            sent := sent + [Status(CaptureOkText)];
          } else {
            sent := sent + [Status(CaptureFailText)];
          }
          isWorking := false;
        case NewImage =>
          calls := calls + IfPresent([UsbCall.GetBmpImage]);
          sent := sent + [Image];
        case Timeout =>
          sent := sent + [Status(TimeOutText)];
          isWorking := false;
        case Other =>
      }
    }
  }

  /** The driver writing a template into one of the wrapper's 512-byte buffers. */
  method WriteTemplate(buf: array<byte>, bytes: seq<byte>)
    requires buf.Length == |bytes|
    modifies buf
    ensures buf[..] == bytes
  {
    var i := 0;
    while i < buf.Length
      invariant 0 <= i <= buf.Length
      invariant buf[..i] == bytes[..i]
    {
      buf[i] := bytes[i];
      i := i + 1;
    }
  }
}
