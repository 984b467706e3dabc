/**
 * Callers' views of the wrapper: typical open / enroll / verify / time-out
 * sequences, proved from the method contracts alone.
 */
module Scenarios {
  import opened Templates
  import opened StatusText
  import opened Session
  import opened Messages
  import opened SdkWrapper

  /**
   * Open the device and enroll a reference: the caller gets OpenOkText,
   * EnrollOkText and the reference template, which stays in `refData`.
   */
  method OpenAndEnroll(w: FingerprintSdkWrapper, reference: TemplateFill)
    requires w.Valid() && w.hasModule
    requires |reference.bytes| == TemplateSize
    modifies w, w.refData, w.matData
    ensures w.Valid() && w.Current() == Flags(true, false)
    ensures w.refData[..] == reference.bytes && w.refSize == reference.size
    ensures w.calls == old(w.calls) + [UsbCall.OpenDevice, UsbCall.EnrolTemplate, UsbCall.GetTemplateByEnl]
    ensures w.sent == old(w.sent) + [
      Status(OpenOkText),
      Status(EnrollOkText),
      Template(CopyOf(reference.bytes, reference.size))]
  {
    var ok := w.OpenDevice(0);
    w.EnrollTemplate();
    assert w.Current() == Flags(true, true);
    w.HandleMessage(Enrolled(1), reference, 0);
  }

  /**
   * Generate a sample on an open idle device: the matcher compares the stored
   * reference with the new sample, and the caller gets the match line and then
   * the sample template.
   */
  method GenerateAndMatch(w: FingerprintSdkWrapper, sample: TemplateFill, score: int)
    requires w.Valid() && w.hasModule && w.Current() == Flags(true, false)
    requires |sample.bytes| == TemplateSize
    modifies w, w.refData, w.matData
    ensures w.Valid() && w.Current() == Flags(true, false)
    ensures w.refData[..] == old(w.refData[..])
    ensures w.calls == old(w.calls) + [
      UsbCall.GenerateTemplate,
      UsbCall.GetTemplateByGen,
      UsbCall.MatchTemplate(old(w.refData[..]), sample.bytes)]
    ensures w.sent == old(w.sent) + [
      Status(GenerateOkText),
      Status(MatchLine(score)),
      Template(CopyOf(sample.bytes, sample.size))]
  {
    w.GenerateTemplate();
    assert w.Current() == Flags(true, true);
    w.HandleMessage(GenChar(1), sample, score);
  }

  /**
   * Open, enroll a reference, then generate a sample: the sample is matched
   * against the reference just enrolled.
   */
  method EnrollThenVerify(w: FingerprintSdkWrapper, reference: TemplateFill, sample: TemplateFill, score: int)
    requires w.Valid() && w.hasModule
    requires |reference.bytes| == TemplateSize && |sample.bytes| == TemplateSize
    modifies w, w.refData, w.matData
    ensures w.Valid() && w.Current() == Flags(true, false)
    ensures w.calls == old(w.calls) + [
      UsbCall.OpenDevice,
      UsbCall.EnrolTemplate,
      UsbCall.GetTemplateByEnl,
      UsbCall.GenerateTemplate,
      UsbCall.GetTemplateByGen,
      UsbCall.MatchTemplate(reference.bytes, sample.bytes)]
    ensures w.sent == old(w.sent) + [
      Status(OpenOkText),
      Status(EnrollOkText),
      Template(CopyOf(reference.bytes, reference.size)),
      Status(GenerateOkText),
      Status(MatchLine(score)),
      Template(CopyOf(sample.bytes, sample.size))]
  {
    OpenAndEnroll(w, reference);
    GenerateAndMatch(w, sample, score);
  }

  /**
   * While an operation is in flight, further requests are dropped without a
   * driver call; a timeout then reports TimeOutText and frees the session.
   */
  method BusyThenTimeout(w: FingerprintSdkWrapper, fill: TemplateFill)
    requires w.Valid() && w.isWorking
    requires |fill.bytes| == TemplateSize
    modifies w, w.refData, w.matData
    ensures w.Valid() && w.Current() == Flags(true, false)
    ensures w.calls == old(w.calls)
    ensures w.sent == old(w.sent) + [Status(TimeOutText)]
  {
    w.ValidInv();
    w.EnrollTemplate();
    w.GenerateTemplate();
    w.HandleMessage(Timeout, fill, 0);
  }

  /** A refused open leaves a closed session closed and asks for permission. */
  method OpenRefused(w: FingerprintSdkWrapper, code: int)
    requires w.Valid() && w.hasModule && !w.isOpening && code != 0
    modifies w
    ensures w.Valid() && !w.isOpening
    ensures w.calls == old(w.calls) + [UsbCall.OpenDevice, UsbCall.RequestPermission]
    ensures w.sent == old(w.sent) + [Status(PermissionText)]
  {
    var ok := w.OpenDevice(code);
  }
}
