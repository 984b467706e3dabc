# Fingerprint SDK wrapper: device-session controller

This project models `FingerprintSdkWrapper`, the Android class that connects the
app's Flutter method channel to a vendor USB fingerprint reader. The class does
four things:

- It keeps two session flags. `isOpening` means the device is open. `isWorking`
  means an enroll or generate operation is in flight.
- It forwards the caller's commands to the driver: open, close, enroll, generate,
  pause, resume and match.
- It turns the driver's asynchronous messages into status strings, template
  bytes and images for the caller.
- It normalises the two templates given to `matchTemplates` into 512-byte buffers.

Modules:

- `Templates`: the signed `byte` type, the 512-byte template capacity, Kotlin's
  `copyOf` (`CopyOf`), and the fresh-buffer-plus-`System.arraycopy` step of
  `matchTemplates` (`Fit`, `CopyPrefix`) as methods over arrays.
- `StatusText`: the decimal rendering behind `"Match Return: $matchResult"`, and
  a parser that proves the score can be read back from that line.
- `Session`: the pure state machine of the two flags (`Next`, `Run`), proved
  against the three-state view Closed / Open-Idle / Open-Busy (`NextPhase`), and
  lemmas about whole command and event histories.
- `Messages`: the driver calls and caller notifications as datatypes, and for
  each driver message a function giving exactly the calls it makes, the
  notifications it sends and the template buffers afterwards (`MessageEffect`,
  `Refill`), with lemmas about what any message can send.
- `SdkWrapper`: the class `FingerprintSdkWrapper`, with the flags, the
  `refData`/`matData` arrays and their size cells as mutable fields. Two logs
  record effects in order. `calls` holds every driver call, including the buffers
  given to the matcher. `sent` holds every `onStatus`, `onTemplate` and `onImage`
  notification. A ghost `history` holds every input, and `Valid()` ties the flags
  to `Session.Run(history)`, so the history lemmas apply to every object.
- `Scenarios`: client methods for typical open / enroll / verify / time-out
  sequences, proved from the method contracts alone.

The driver is a closed collaborator. What it returns enters each method as a
parameter: the open result code, the bytes and size it writes for a template,
and the match score. The model records which calls were made. It does not model
what the driver computes.

A missing driver handle does not make every command a no-op: `enrollTemplate`
and `generateTemplate` still set `isWorking` when the handle is missing
(FingerprintSdkWrapper.kt:143-144, 149-150), and the model does the same. Also, a missing handle can only occur in principle: the constructor
always assigns one (FingerprintSdkWrapper.kt:102-106). The model keeps the handle
as a constructor argument, so the `?.` paths are modelled too.

## Model

| member | source | states |
|---|---|---|
| `Templates.CopyOf` | android/app/src/main/kotlin/com/example/fingerprintmis8/FingerprintSdkWrapper.kt:67-80 | `copyOf(n)` has length n; byte i is the input's byte i when the input has one, and 0 otherwise |
| `Templates.CopyOfShorter` | android/app/src/main/kotlin/com/example/fingerprintmis8/FingerprintSdkWrapper.kt:79 | a copy to a size within the buffer is exactly the buffer's first size bytes (`refData[..refSize]`) |
| `Templates.PadThenCut` | android/app/src/main/kotlin/com/example/fingerprintmis8/FingerprintSdkWrapper.kt:112-115 | zero-padding loses nothing: cutting the padded copy back to the input's length gives the input |
| `Templates.TruncationForgets` | android/app/src/main/kotlin/com/example/fingerprintmis8/FingerprintSdkWrapper.kt:114-115 | truncation is silent: inputs that agree on their first n bytes yield the same buffer, whatever follows |
| `Templates.MatchBufferLengths` | android/app/src/main/kotlin/com/example/fingerprintmis8/FingerprintSdkWrapper.kt:110-115 | inputs of 0, 511 and 512 bytes pass through followed by zeros; a 600-byte input is cut to its first 512 bytes |
| `Templates.CopyPrefix` | android/app/src/main/kotlin/com/example/fingerprintmis8/FingerprintSdkWrapper.kt:114-115 | `System.arraycopy` from offset 0: the first n elements become the source's, the rest are unchanged |
| `Templates.Fit` | android/app/src/main/kotlin/com/example/fingerprintmis8/FingerprintSdkWrapper.kt:112-115 | a fresh 512-byte buffer whose contents are the template cut or zero-padded to 512 bytes |
| `StatusText.NatToString` | android/app/src/main/kotlin/com/example/fingerprintmis8/FingerprintSdkWrapper.kt:65 | the decimal rendering is a non-empty string of digits with no leading zero |
| `StatusText.NatRoundTrip` | android/app/src/main/kotlin/com/example/fingerprintmis8/FingerprintSdkWrapper.kt:65 | the digits of n read back as n |
| `StatusText.IntRoundTrip` | android/app/src/main/kotlin/com/example/fingerprintmis8/FingerprintSdkWrapper.kt:65 | the rendering of any integer score, negative ones included, parses back to that score |
| `StatusText.MatchLineInjective` | android/app/src/main/kotlin/com/example/fingerprintmis8/FingerprintSdkWrapper.kt:64-65 | two "Match Return:" lines are equal only for equal scores |
| `StatusText.MatchLineIsDistinct` | android/app/src/main/kotlin/com/example/fingerprintmis8/FingerprintSdkWrapper.kt:65 | the match line is never one of the fixed status texts |
| `Session.NextPreservesInv` | android/app/src/main/kotlin/com/example/fingerprintmis8/FingerprintSdkWrapper.kt:119-151 | every command and every event keeps busy-implies-open |
| `Session.ReachableInvariant` | android/app/src/main/kotlin/com/example/fingerprintmis8/FingerprintSdkWrapper.kt:16-17 | starting from both flags false, every history keeps busy-implies-open, so closed-but-busy is unreachable |
| `Session.RequestGuard` | android/app/src/main/kotlin/com/example/fingerprintmis8/FingerprintSdkWrapper.kt:141-151 | an enroll or generate request marks an open idle session busy and leaves any other session exactly as it was |
| `Session.CloseIdempotent` | android/app/src/main/kotlin/com/example/fingerprintmis8/FingerprintSdkWrapper.kt:134-139 | close leaves any session closed and idle; closing twice gives the same flags as closing once |
| `Session.DeviceEvents` | android/app/src/main/kotlin/com/example/fingerprintmis8/FingerprintSdkWrapper.kt:29-49 | detach forces closed and idle from any state; DEV_OK gives open and idle; attach and other codes leave the flags alone |
| `Session.EventsAndWork` | android/app/src/main/kotlin/com/example/fingerprintmis8/FingerprintSdkWrapper.kt:50-94 | capture, generate, enroll and timeout events clear `isWorking` whatever their outcome and keep `isOpening`; place, lift, new-image and unknown messages change nothing |
| `Session.OnlyClearingInputsEndWork` | android/app/src/main/kotlin/com/example/fingerprintmis8/FingerprintSdkWrapper.kt:26-151 | a busy session stays busy under every input other than a terminal event, close, detach, DEV_OK or successful open |
| `Session.BusyIffPending` | android/app/src/main/kotlin/com/example/fingerprintmis8/FingerprintSdkWrapper.kt:141-151 | over any history, an operation is in flight exactly when an accepted request has not since been ended by a clearing input |
| `Session.PhaseBijection` | android/app/src/main/kotlin/com/example/fingerprintmis8/FingerprintSdkWrapper.kt:16-17 | under the invariant, the two flags correspond one-to-one with Closed, Open-Idle and Open-Busy |
| `Session.StepAgrees` | android/app/src/main/kotlin/com/example/fingerprintmis8/FingerprintSdkWrapper.kt:26-151 | one step of the flags agrees with one step of the three-state machine |
| `Session.RunAgrees` | android/app/src/main/kotlin/com/example/fingerprintmis8/FingerprintSdkWrapper.kt:119-151 | over any history, the flags and the three-state machine agree |
| `SdkWrapper.FingerprintSdkWrapper.constructor` | android/app/src/main/kotlin/com/example/fingerprintmis8/FingerprintSdkWrapper.kt:102-106 | both flags false, zeroed 512-byte buffers with sizes 0, and `InitMatch` then `SetContextHandler` called when a handle exists |
| `SdkWrapper.FingerprintSdkWrapper.ValidInv` | android/app/src/main/kotlin/com/example/fingerprintmis8/FingerprintSdkWrapper.kt:16-17 | a wrapper's flags are never closed-but-busy |
| `SdkWrapper.FingerprintSdkWrapper.BusyMeansPending` | android/app/src/main/kotlin/com/example/fingerprintmis8/FingerprintSdkWrapper.kt:141-151 | a wrapper is busy exactly when a request it accepted is still pending in its history |
| `SdkWrapper.FingerprintSdkWrapper.OpenDevice` | android/app/src/main/kotlin/com/example/fingerprintmis8/FingerprintSdkWrapper.kt:119-132 | returns true exactly when there is a handle and the driver's result is 0, then the session is open and idle and "Open Device OK" is sent; a non-zero result keeps the flags, calls `requestPermission` and sends "Request Permission"; no handle means no effect |
| `SdkWrapper.FingerprintSdkWrapper.CloseDevice` | android/app/src/main/kotlin/com/example/fingerprintmis8/FingerprintSdkWrapper.kt:134-139 | from any state: the driver's close is called, both flags become false and "Close Device" is sent |
| `SdkWrapper.FingerprintSdkWrapper.EnrollTemplate` | android/app/src/main/kotlin/com/example/fingerprintmis8/FingerprintSdkWrapper.kt:141-145 | open and idle: exactly one `EnrolTemplate` call and the session becomes busy; otherwise no call and no flag change; nothing is sent either way |
| `SdkWrapper.FingerprintSdkWrapper.GenerateTemplate` | android/app/src/main/kotlin/com/example/fingerprintmis8/FingerprintSdkWrapper.kt:147-151 | the same guard and effect, with one `GenerateTemplate` call |
| `SdkWrapper.FingerprintSdkWrapper.PauseUnregister` | android/app/src/main/kotlin/com/example/fingerprintmis8/FingerprintSdkWrapper.kt:153-155 | one `PauseUnRegister` call when there is a handle; the flags and notifications are untouched |
| `SdkWrapper.FingerprintSdkWrapper.ResumeRegister` | android/app/src/main/kotlin/com/example/fingerprintmis8/FingerprintSdkWrapper.kt:157-159 | one `ResumeRegister` call when there is a handle; the flags and notifications are untouched |
| `SdkWrapper.FingerprintSdkWrapper.MatchTemplates` | android/app/src/main/kotlin/com/example/fingerprintmis8/FingerprintSdkWrapper.kt:108-117 | -1 and no call without a handle; otherwise the driver's score, with one matcher call on the two inputs cut or zero-padded to 512 bytes; the inputs are unchanged |
| `SdkWrapper.FingerprintSdkWrapper.HandleMessage` | android/app/src/main/kotlin/com/example/fingerprintmis8/FingerprintSdkWrapper.kt:26-99 | the flags follow `Session.Next`; the driver calls and notifications appended are exactly `MessageEffect` of the message, and the buffers and size cells become `Refill` of the old ones (only a successful enroll or generate with a handle changes them) |
| `SdkWrapper.FingerprintSdkWrapper.DeviceMessage` | android/app/src/main/kotlin/com/example/fingerprintmis8/FingerprintSdkWrapper.kt:29-49 | detach closes the session, calls the driver's close and sends "Device Detached - Closed"; DEV_OK opens it idle and sends "Open Device OK"; other codes send "Open Device Fail"; attach does nothing |
| `SdkWrapper.FingerprintSdkWrapper.GenCharMessage` | android/app/src/main/kotlin/com/example/fingerprintmis8/FingerprintSdkWrapper.kt:60-73 | on success "Generate Template OK" is sent; with a handle, `GetTemplateByGen` refills `matData` with the driver's bytes and one matcher call compares `refData` with that new sample; then the match line for the score (-1 without a handle) and the sample cut to `matSize` (the old `matData` without a handle) are sent; on failure only "Generate Template Fail"; always idle afterwards |
| `SdkWrapper.FingerprintSdkWrapper.EnrolledMessage` | android/app/src/main/kotlin/com/example/fingerprintmis8/FingerprintSdkWrapper.kt:74-85 | on success "Enroll Template OK" then one template, `refData` cut to `refSize`, where with a handle `GetTemplateByEnl` first refills `refData`; on failure only "Enroll Template Fail"; always idle afterwards |
| `SdkWrapper.FingerprintSdkWrapper.SimpleMessage` | android/app/src/main/kotlin/com/example/fingerprintmis8/FingerprintSdkWrapper.kt:50-97 | the prompts send "Place Finger" / "Lift Finger"; a capture sends its OK or Fail line and clears `isWorking`; a new image calls `GetBmpImage` when there is a handle and sends one image; a timeout sends "Time Out" and clears `isWorking`; other codes do nothing |
| `SdkWrapper.WriteTemplate` | android/app/src/main/kotlin/com/example/fingerprintmis8/FingerprintSdkWrapper.kt:63 | the driver's in-place write of a template leaves the buffer holding exactly the written bytes |
| `Messages.TemplateOnlyOnSuccess` | android/app/src/main/kotlin/com/example/fingerprintmis8/FingerprintSdkWrapper.kt:60-85 | a message sends a template only when it is a successful enroll or generate: exactly one, sent last, equal to the refilled buffer cut or padded to its size cell; every other message, failures included, sends none |
| `Messages.StatusVocabulary` | android/app/src/main/kotlin/com/example/fingerprintmis8/FingerprintSdkWrapper.kt:28-99 | every status line a message sends is one of the fixed texts, except the match line of a successful generate, which carries the score (-1 without a handle) |
| `Messages.NoHandleNoCalls` | android/app/src/main/kotlin/com/example/fingerprintmis8/FingerprintSdkWrapper.kt:26-99 | without a driver handle no message makes a driver call |
| `Scenarios.OpenAndEnroll` | android/app/src/main/kotlin/com/example/fingerprintmis8/FingerprintSdkWrapper.kt:74-85 | open then enroll: calls `OpenDevice`, `EnrolTemplate`, `GetTemplateByEnl`; sends "Open Device OK", "Enroll Template OK" and the reference; the reference stays in `refData` and the session ends open and idle |
| `Scenarios.GenerateAndMatch` | android/app/src/main/kotlin/com/example/fingerprintmis8/FingerprintSdkWrapper.kt:60-73 | generate on an open idle session: the matcher compares the stored reference with the new sample; the caller gets "Generate Template OK", the match line and the sample; the reference is unchanged |
| `Scenarios.EnrollThenVerify` | android/app/src/main/kotlin/com/example/fingerprintmis8/FingerprintSdkWrapper.kt:60-85 | open, enroll, then generate: the caller gets the reference, the match line and the sample, and the matcher compares the enrolled reference with the new sample |
| `Scenarios.BusyThenTimeout` | android/app/src/main/kotlin/com/example/fingerprintmis8/FingerprintSdkWrapper.kt:91-94 | requests while busy make no driver call; a timeout then sends "Time Out" and leaves the session open and idle |
| `Scenarios.OpenRefused` | android/app/src/main/kotlin/com/example/fingerprintmis8/FingerprintSdkWrapper.kt:127-130 | a refused open on a closed session leaves it closed, calls `requestPermission` and sends "Request Permission" |

## Left out

- Concurrency: the `AtomicBoolean` flags, races between the caller thread and the handler thread, and the `runOnUiThread` hand-off. Notifications are an ordered log, appended when they are sent.
- Images: the contents of `bmpData`/`bmpSize`, `BitmapFactory.decodeByteArray`, PNG compression and a failed decode. A new-image message records one `GetBmpImage` call and one `Image` notification, and leaves the flags alone.
- The interleaving of driver calls and notifications within one message: `calls` and `sent` are separate logs, each in order, so the model does not record, for example, that "Generate Template OK" is sent before `GetTemplateByGen` is called (FingerprintSdkWrapper.kt:62-63).
- The driver's internals: USB open, the permission flow, template extraction and the matching algorithm. Their results are method parameters.
- `SdkWrapper.FingerprintSdkWrapper.HandleMessage`: the size the driver writes into `refSize`/`matSize` is a natural number. A negative size would make `copyOf` throw, and that is not modelled. The bytes the driver writes are the full 512-byte buffer contents.
- Match scores and result codes are unbounded integers, not 32-bit `Int`s. Nothing in the wrapper does arithmetic on them.
- The numeric `what`/`arg1` message codes belong to the vendor's `Constants` class, which is not part of this model. Messages are a datatype instead. Capture, generate and enroll keep their `arg1`, and only the value 1 counts as success.
- `SetContextHandler` registers the message handler; in the model, delivery is a call to `HandleMessage`.
- The `?: -1` fallback at the end of `matchTemplates` cannot be reached after the null check, so it is not modelled separately.
- MainActivity.kt only forwards method-channel names to the wrapper, and the model does not include it.
- functions/index.js is a cloud function that sends e-mail through external services, and the model does not include it.
