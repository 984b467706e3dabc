/**
 * What the fingerprint wrapper says to its two neighbours: the calls it makes on
 * the vendor driver, the notifications it sends over the method channel, and,
 * for each driver message, exactly which of both it produces.
 */
module Messages {
  import opened Templates
  import opened StatusText
  import opened Session

  /** The driver entry points the wrapper calls, with the buffers given to the matcher. */
  datatype UsbCall =
    | InitMatch
    | SetContextHandler
    | OpenDevice
    | RequestPermission
    | CloseDevice
    | EnrolTemplate
    | GenerateTemplate
    | PauseUnRegister
    | ResumeRegister
    | GetTemplateByGen
    | GetTemplateByEnl
    | GetBmpImage
    | MatchTemplate(first: seq<byte>, second: seq<byte>)

  /** What the caller receives: `onStatus`, `onTemplate` and `onImage`. */
  datatype Notification = Status(text: string) | Template(bytes: seq<byte>) | Image

  /**
   * What the driver writes when asked for a template: the new contents of the
   * 512-byte buffer and the size it stores in the size cell.
   */
  datatype TemplateFill = TemplateFill(bytes: seq<byte>, size: nat)

  /** The contents of `refData` and `matData` with their size cells. */
  datatype Buffers = Buffers(ref: seq<byte>, refSize: nat, mat: seq<byte>, matSize: nat)

  /**
   * The buffers after message `e`: the driver refills one only for a successful
   * enroll (`refData`) or generate (`matData`), and only when there is a handle.
   */
  function Refill(b: Buffers, e: Event, present: bool, fill: TemplateFill): Buffers
  {
    if present && e.Enrolled? && e.arg1 == 1 then b.(ref := fill.bytes, refSize := fill.size)
    else if present && e.GenChar? && e.arg1 == 1 then b.(mat := fill.bytes, matSize := fill.size)
    else b
  }

  /** What handling one message does outwardly: the driver calls made and the notifications sent, in order. */
  datatype Effect = Effect(calls: seq<UsbCall>, sent: seq<Notification>)

  /** A device message: attach, detach, DEV_OK or any other device code. */
  function DeviceEffect(status: DeviceStatus, present: bool): Effect
  {
    match status
    case Attached => Effect([], [])
    case Detached => Effect(if present then [UsbCall.CloseDevice] else [], [Status(DetachedText)])
    case DevOk => Effect([], [Status(OpenOkText)])
    case OtherCode(_) => Effect([], [Status(OpenFailText)])
  }

  /**
   * A template-generated message. On success the driver fills the sample buffer,
   * the sample is matched against the reference buffer `b.ref`, and the caller
   * gets the match line and then the sample; without a handle the score is -1
   * and the sample buffer keeps its old contents.
   */
  function GenCharEffect(arg1: int, present: bool, b: Buffers, fill: TemplateFill, score: int): Effect
  {
    if arg1 != 1 then
      Effect([], [Status(GenerateFailText)])
    else if present then
      Effect(
        [UsbCall.GetTemplateByGen, UsbCall.MatchTemplate(b.ref, fill.bytes)],
        [Status(GenerateOkText), Status(MatchLine(score)), Template(CopyOf(fill.bytes, fill.size))])
    else
      Effect([], [Status(GenerateOkText), Status(MatchLine(-1)), Template(CopyOf(b.mat, b.matSize))])
  }

  /** A template-enrolled message. On success the caller gets the enrolled reference. */
  function EnrolledEffect(arg1: int, present: bool, b: Buffers, fill: TemplateFill): Effect
  {
    if arg1 != 1 then
      Effect([], [Status(EnrollFailText)])
    else if present then
      Effect([UsbCall.GetTemplateByEnl], [Status(EnrollOkText), Template(CopyOf(fill.bytes, fill.size))])
    else
      Effect([], [Status(EnrollOkText), Template(CopyOf(b.ref, b.refSize))])
  }

  /** The remaining messages: the finger prompts, the capture outcome, a new image, a timeout and unknown codes. */
  function SimpleEffect(e: Event, present: bool): Effect
    requires !e.Device? && !e.GenChar? && !e.Enrolled?
  {
    match e
    case Place => Effect([], [Status(PlaceText)])
    case Lift => Effect([], [Status(LiftText)])
    case Capture(arg1) => Effect([], [Status(if arg1 == 1 then CaptureOkText else CaptureFailText)])
    case NewImage => Effect(if present then [UsbCall.GetBmpImage] else [], [Image])
    case Timeout => Effect([], [Status(TimeOutText)])
    case Other => Effect([], [])
  }

  /** What handling message `e` does outwardly, given the buffers before it. */
  function MessageEffect(e: Event, present: bool, b: Buffers, fill: TemplateFill, score: int): Effect
  {
    match e
    case Device(status) => DeviceEffect(status, present)
    case GenChar(arg1) => GenCharEffect(arg1, present, b, fill, score)
    case Enrolled(arg1) => EnrolledEffect(arg1, present, b, fill)
    case _ => SimpleEffect(e, present)
  }

  /** The template payloads among `ns`, in order. */
  function TemplatesSent(ns: seq<Notification>): seq<seq<byte>>
  {
    if ns == [] then [] else (if ns[0].Template? then [ns[0].bytes] else []) + TemplatesSent(ns[1..])
  }

  /**
   * A template reaches the caller only for a successful enroll or generate
   * message: exactly one, sent last, equal to the refilled buffer cut or padded
   * to its size cell. Every other message, failures included, sends none.
   */
  lemma TemplateOnlyOnSuccess(e: Event, present: bool, b: Buffers, fill: TemplateFill, score: int)
    ensures
      var sent := MessageEffect(e, present, b, fill, score).sent;
      var after := Refill(b, e, present, fill);
      && TemplatesSent(sent) ==
           (if e.Enrolled? && e.arg1 == 1 then [CopyOf(after.ref, after.refSize)]
            else if e.GenChar? && e.arg1 == 1 then [CopyOf(after.mat, after.matSize)]
            else [])
      && (TemplatesSent(sent) != [] ==> sent[|sent| - 1] == Template(TemplatesSent(sent)[0]))
  {
    var sent := MessageEffect(e, present, b, fill, score).sent;
    if e.GenChar? && e.arg1 == 1 {
      assert sent[1..][1..] == [sent[2]];
      assert TemplatesSent(sent[1..][1..]) == [sent[2].bytes];
    } else if e.Enrolled? && e.arg1 == 1 {
      assert sent[1..] == [sent[1]];
      assert TemplatesSent(sent[1..]) == [sent[1].bytes];
    }
  }

  /**
   * Every status line a message produces is one of the fixed texts, except the
   * match line of a successful generate, which carries the driver's score (-1
   * without a handle).
   */
  lemma StatusVocabulary(e: Event, present: bool, b: Buffers, fill: TemplateFill, score: int)
    ensures forall n :: n in MessageEffect(e, present, b, fill, score).sent && n.Status? ==>
      n.text in Vocabulary || (e == GenChar(1) && n.text == MatchLine(if present then score else -1))
  {
  }

  /** Without a driver handle no message leads to a driver call. */
  lemma NoHandleNoCalls(e: Event, b: Buffers, fill: TemplateFill, score: int)
    ensures MessageEffect(e, false, b, fill, score).calls == []
  {
  }
}
