/**
  The three printer interfaces `USBPrinter`, `BLEPrinter` and `NetPrinter`.

  Each interface method does one thing: it calls one entry of a native
  module, with arguments it prepares from the caller's, and hands back a
  result. Which entry is called, with what, and what is handed back depends
  only on:
  - the transport;
  - the operation;
  - whether the turbo modules are present (`isTurbo`);
  - the platform;
  - whether the native module has a `printHex` entry.

  `UsbPrinter`, `BlePrinter` and `NetPrinter` compute that decision as an
  `Outcome`. `Observe` then says what the caller sees once the native side
  has succeeded or failed.
 */
module Printers {
  import opened Wrappers
  import opened Codec
  import opened Options
  import opened Bytes
  import opened Markup

  datatype Transport = Usb | Ble | Net

  /** `Platform.OS`; only the test `=== 'ios'` matters. */
  datatype Platform = Ios | Android | OtherPlatform

  /** What the methods consult besides their arguments. */
  datatype Environment = Environment(
    isTurbo: bool,      // the USB turbo module is present (one flag for all three transports)
    os: Platform,
    hasPrintHex: bool)  // the native module object of the transport has a `printHex` entry

  /** Which native module object is bound: the turbo one when `isTurbo`, else the
      classic bridge module. */
  datatype NativeModule = Turbo | Legacy

  function ModuleFor(isTurbo: bool): NativeModule {
    if isTurbo then Turbo else Legacy
  }

  /** The native entries the interfaces call. */
  datatype Entry = Init | GetDeviceList | ConnectPrinter | CloseConn | PrintRawData | PrintHex

  /** A plain argument of a native call. */
  datatype Arg = Str(s: string) | Num(n: int) | Opts(o: PrinterOptions)

  /** A callback argument of a native call, by what it does. */
  datatype Callback =
    | ResolveVoid    // `() => resolve()`
    | ResolveWith    // `(x) => resolve(x)`
    | RejectWith     // `(error) => reject(error)`
    | WarnOnError    // `(error) => console.warn(error)`
    | ForwardOnError // `(error) => { if (onError) onError(error) }`

  datatype NativeCall = NativeCall(
    transport: Transport,
    binding: NativeModule,
    entry: Entry,
    args: seq<Arg>,
    callbacks: seq<Callback>)

  /** What the interface method hands back. */
  datatype Returns =
    | ReturnsNative  // whatever the native call returns (for `async` methods, adopted by the promise)
    | WrapsInPromise // a new promise the callbacks settle
    | ResolvesVoid   // a promise resolved with `undefined` once the call is made
    | ReturnsNothing // `undefined`, not a promise

  datatype Outcome =
    | Calls(call: NativeCall, handsBack: Returns)
    | ThrowsMissing(entry: Entry) // the entry is read off the module object and called although it is absent

  /** A caller's printer address, one shape per transport. */
  datatype Address =
    | UsbAddress(vendorId: string, productId: string)
    | BleAddress(innerMacAddress: string)
    | NetAddress(host: string, port: int)

  /** The `onError` argument of `printRawData`: left out (the default `() => {}`), a
      caller's handler, or a falsy value the guard `if (onError)` skips. */
  datatype OnError = DefaultHandler | Handler(id: nat) | NoHandler

  datatype Operation =
    | InitOp
    | GetDeviceListOp
    | ConnectPrinterOp(address: Address)
    | CloseConnOp
    | PrintTextOp(text: string, opts: PrinterOptions)
    | PrintBillOp(text: string, opts: PrinterOptions)
    | PrintRawDataOp(data: seq<byte>, onError: OnError)
    | PrintImageOp(imagePath: string)

  /** `EPToolkit.exchange_text` and `EPToolkit.exchange_image`: external, so given. */
  datatype Toolkit = Toolkit(exchangeText: TextExchange, exchangeImage: (string, int) -> seq<byte>)

  /** The default threshold of `imageToBuffer`. */
  const ImageThreshold := 60

  /** `imageToBuffer(imagePath)`: the base64 rendering of the image command bytes. */
  function ImageToBuffer(tk: Toolkit, imagePath: string): (r: string)
    ensures Base64Decode(r) == Some(tk.exchangeImage(imagePath, ImageThreshold))
  {
    var buffer := tk.exchangeImage(imagePath, ImageThreshold);
    Base64RoundTrip(buffer);
    Base64Encode(buffer)
  }

  /** The arguments a connect call passes before its callbacks. */
  function AddressArgs(address: Address): seq<Arg> {
    match address
    case UsbAddress(v, p) => [Str(v), Str(p)]
    case BleAddress(m) => [Str(m)]
    case NetAddress(h, p) => [Str(h), Num(p)]
  }

  /** The address shape each interface's `connectPrinter` takes. */
  predicate AddressFits(t: Transport, address: Address) {
    match t
    case Usb => address.UsbAddress?
    case Ble => address.BleAddress?
    case Net => address.NetAddress?
  }

  /** `if (isTurbo) return M.entry(args); return new Promise((resolve, reject) =>
      M.entry(args, success, reject))`, as in `init`, `getDeviceList`, `connectPrinter`. */
  function Wrapped(t: Transport, env: Environment, entry: Entry, args: seq<Arg>, success: Callback): Outcome {
    if env.isTurbo then Calls(NativeCall(t, Turbo, entry, args, []), ReturnsNative)
    else Calls(NativeCall(t, Legacy, entry, args, [success, RejectWith]), WrapsInPromise)
  }

  /** `closeConn` of USB and BLE. */
  function CloseShared(t: Transport, env: Environment): Outcome {
    if env.isTurbo then Calls(NativeCall(t, Turbo, CloseConn, [], []), ReturnsNative)
    else Calls(NativeCall(t, Legacy, CloseConn, [], []), ResolvesVoid)
  }

  /** A print call whose native errors are only logged: turbo passes `turboArgs`,
      the classic module `legacyArgs` and a warning callback. */
  function PrintLogged(t: Transport, env: Environment, turboArgs: seq<Arg>, legacyArgs: seq<Arg>): Outcome {
    if env.isTurbo then Calls(NativeCall(t, Turbo, PrintRawData, turboArgs, []), ReturnsNative)
    else Calls(NativeCall(t, Legacy, PrintRawData, legacyArgs, [WarnOnError]), ReturnsNative)
  }

  /** `printRawData` with a base64 payload (USB, and BLE off iOS). */
  function RawBase64(t: Transport, env: Environment, data: seq<byte>): Outcome {
    var payload := Render(data, Base64);
    if env.isTurbo then Calls(NativeCall(t, Turbo, PrintRawData, [Str(payload)], []), ReturnsNative)
    else Calls(NativeCall(t, Legacy, PrintRawData, [Str(payload)], [ForwardOnError]), ReturnsNative)
  }

  /** `printImage` of USB and BLE. */
  function ImageShared(t: Transport, env: Environment, tk: Toolkit, imagePath: string): Outcome {
    var tmp := ImageToBuffer(tk, imagePath);
    if env.isTurbo then Calls(NativeCall(t, Turbo, PrintRawData, [Str(tmp)], []), ReturnsNative)
    else Calls(NativeCall(t, Legacy, PrintRawData, [Str(tmp)], [WarnOnError]), ResolvesVoid)
  }

  /** `USBPrinter`. */
  function UsbPrinter(env: Environment, tk: Toolkit, op: Operation): (r: Outcome)
    requires op.ConnectPrinterOp? ==> AddressFits(Usb, op.address)
    ensures r.Calls? && r.call.transport == Usb && r.call.binding == ModuleFor(env.isTurbo)
  {
    match op
    case InitOp => Wrapped(Usb, env, Init, [], ResolveVoid)
    case GetDeviceListOp => Wrapped(Usb, env, GetDeviceList, [], ResolveWith)
    case ConnectPrinterOp(a) => Wrapped(Usb, env, ConnectPrinter, AddressArgs(a), ResolveWith)
    case CloseConnOp => CloseShared(Usb, env)
    case PrintTextOp(text, opts) =>
      var data := TextTo64Buffer(tk.exchangeText, text, opts);
      PrintLogged(Usb, env, [Str(data), Opts(opts)], [Str(data)])
    case PrintBillOp(text, opts) =>
      var data := BillTo64Buffer(tk.exchangeText, text, opts);
      PrintLogged(Usb, env, [Str(data), Opts(opts)], [Str(data)])
    case PrintRawDataOp(data, _) => RawBase64(Usb, env, data)
    case PrintImageOp(path) => ImageShared(Usb, env, tk, path)
  }

  /** `BLEPrinter`. */
  function BlePrinter(env: Environment, tk: Toolkit, op: Operation): (r: Outcome)
    requires op.ConnectPrinterOp? ==> AddressFits(Ble, op.address)
    ensures r.Calls? ==> r.call.transport == Ble && r.call.binding == ModuleFor(env.isTurbo)
    ensures r.ThrowsMissing? <==> op.PrintRawDataOp? && env.os == Ios && !env.isTurbo && !env.hasPrintHex
  {
    match op
    case InitOp => Wrapped(Ble, env, Init, [], ResolveVoid)
    case GetDeviceListOp => Wrapped(Ble, env, GetDeviceList, [], ResolveWith)
    case ConnectPrinterOp(a) => Wrapped(Ble, env, ConnectPrinter, AddressArgs(a), ResolveWith)
    case CloseConnOp => CloseShared(Ble, env)
    case PrintTextOp(text, opts) =>
      if env.os == Ios then
        var p := TextPreprocessingIOS(text);
        PrintLogged(Ble, env, [Str(p.text), Opts(p.opts)], [Str(p.text), Opts(p.opts)])
      else
        var data := TextTo64Buffer(tk.exchangeText, text, opts);
        PrintLogged(Ble, env, [Str(data), Opts(opts)], [Str(data)])
    case PrintBillOp(text, opts) =>
      if env.os == Ios then
        var p := TextPreprocessingIOS(text);
        PrintLogged(Ble, env, [Str(p.text), Opts(p.opts)], [Str(p.text), Opts(p.opts)])
      else
        var data := BillTo64Buffer(tk.exchangeText, text, opts);
        PrintLogged(Ble, env, [Str(data), Opts(opts)], [Str(data)])
    case PrintRawDataOp(data, _) =>
      if env.os == Ios then
        var hex := Render(data, Hex);
        if env.isTurbo then
          if env.hasPrintHex then Calls(NativeCall(Ble, Turbo, PrintHex, [Str(hex), Opts(BeepAndCut)], []), ReturnsNative)
          else Calls(NativeCall(Ble, Turbo, PrintRawData, [Str(hex)], []), ReturnsNative)
        else if env.hasPrintHex then
          Calls(NativeCall(Ble, Legacy, PrintHex, [Str(hex), Opts(BeepAndCut)], [ForwardOnError]), ReturnsNative)
        else ThrowsMissing(PrintHex)
      else RawBase64(Ble, env, data)
    case PrintImageOp(path) => ImageShared(Ble, env, tk, path)
  }

  /** `NetPrinter`: always the callback convention, whichever module object is bound. */
  function NetPrinter(env: Environment, tk: Toolkit, op: Operation): (r: Outcome)
    requires op.ConnectPrinterOp? ==> AddressFits(Net, op.address)
    ensures r.Calls? ==> r.call.transport == Net && r.call.binding == ModuleFor(env.isTurbo)
    ensures r.Calls? ==> r.call.callbacks != [] || op.CloseConnOp?
    ensures r.ThrowsMissing? <==> op.PrintRawDataOp? && env.os == Ios && !env.hasPrintHex
  {
    var m := ModuleFor(env.isTurbo);
    match op
    case InitOp => Calls(NativeCall(Net, m, Init, [], [ResolveVoid, RejectWith]), WrapsInPromise)
    case GetDeviceListOp => Calls(NativeCall(Net, m, GetDeviceList, [], [ResolveWith, RejectWith]), WrapsInPromise)
    case ConnectPrinterOp(a) =>
      Calls(NativeCall(Net, m, ConnectPrinter, AddressArgs(a), [ResolveWith, RejectWith]), WrapsInPromise)
    case CloseConnOp => Calls(NativeCall(Net, m, CloseConn, [], []), ResolvesVoid)
    case PrintTextOp(text, opts) =>
      if env.os == Ios then
        var p := TextPreprocessingIOS(text);
        Calls(NativeCall(Net, m, PrintRawData, [Str(p.text), Opts(p.opts)], [WarnOnError]), ReturnsNothing)
      else
        Calls(NativeCall(Net, m, PrintRawData, [Str(TextTo64Buffer(tk.exchangeText, text, opts))], [WarnOnError]), ReturnsNothing)
    case PrintBillOp(text, opts) =>
      if env.os == Ios then
        var p := TextPreprocessingIOS(text);
        Calls(NativeCall(Net, m, PrintRawData, [Str(p.text), Opts(p.opts)], [WarnOnError]), ReturnsNothing)
      else
        Calls(NativeCall(Net, m, PrintRawData, [Str(BillTo64Buffer(tk.exchangeText, text, opts))], [WarnOnError]), ReturnsNothing)
    case PrintRawDataOp(data, _) =>
      if env.os == Ios then
        if env.hasPrintHex then
          Calls(NativeCall(Net, m, PrintHex, [Str(Render(data, Hex)), Opts(BeepAndCut)], [ForwardOnError]), ReturnsNothing)
        else ThrowsMissing(PrintHex)
      else
        Calls(NativeCall(Net, m, PrintRawData, [Str(Render(data, Base64))], [ForwardOnError]), ReturnsNothing)
    case PrintImageOp(path) =>
      Calls(NativeCall(Net, m, PrintRawData, [Str(ImageToBuffer(tk, path))], [WarnOnError]), ResolvesVoid)
  }

  /** The interface of a transport. */
  function Dispatch(t: Transport, env: Environment, tk: Toolkit, op: Operation): Outcome
    requires op.ConnectPrinterOp? ==> AddressFits(t, op.address)
  {
    match t
    case Usb => UsbPrinter(env, tk, op)
    case Ble => BlePrinter(env, tk, op)
    case Net => NetPrinter(env, tk, op)
  }

  // ---------------------------------------------------------------------------
  // What the caller observes
  // ---------------------------------------------------------------------------

  /** How the native side ends: with a value, or with an error. A classic module
      reports through the callbacks it is given. A turbo module takes no callbacks
      (its methods are declared as returning promises), so it reports only by
      settling the promise it returns, and callbacks passed to it never run. */
  datatype NativeResult = Succeeded(value: int) | Failed(error: int)

  datatype Settlement =
    | Fulfilled(value: Option<int>) // `None`: resolved with `undefined`
    | Rejected(error: int)
    | Pending                       // a promise that nothing ever settles
    | ReturnedUndefined             // a plain `undefined`, no promise to wait on
    | ThrewTypeError

  datatype Effect =
    | Warned(error: int)
    | HandlerCalled(handler: nat, error: int)
    | DroppedRejection(error: int) // a native promise the method discards is rejected

  datatype Observation = Observation(settlement: Settlement, effects: seq<Effect>)

  /** What a native promise settles to. */
  function AsPromise(native: NativeResult): Settlement {
    match native
    case Succeeded(v) => Fulfilled(Some(v))
    case Failed(e) => Rejected(e)
  }

  /** The settlement of a call on a classic module. */
  function Settle(callbacks: seq<Callback>, handsBack: Returns, native: NativeResult): (r: Settlement)
    ensures !r.Pending? && !r.ThrewTypeError?
    ensures r.Rejected? ==> native == Failed(r.error) && (handsBack == WrapsInPromise || callbacks == [])
    ensures handsBack == WrapsInPromise && native.Failed? ==> (r.Rejected? <==> RejectWith in callbacks)
    ensures r.Fulfilled? && r.value.Some? ==> native == Succeeded(r.value.value)
  {
    match handsBack
    case ReturnsNothing => ReturnedUndefined
    case ResolvesVoid => Fulfilled(None)
    case ReturnsNative => if callbacks != [] then ReturnedUndefined else AsPromise(native)
    case WrapsInPromise =>
      match native
      case Succeeded(v) => Fulfilled(if callbacks != [] && callbacks[0] == ResolveWith then Some(v) else None)
      case Failed(e) => if RejectWith in callbacks then Rejected(e) else ReturnedUndefined
  }

  /** The settlement of a call on a turbo module: only a returned native promise
      carries its result; a wrapper waiting on callbacks waits forever. */
  function TurboSettle(handsBack: Returns, native: NativeResult): (r: Settlement)
    ensures r.Pending? <==> handsBack == WrapsInPromise
    ensures r == AsPromise(native) <==> handsBack == ReturnsNative
    ensures !r.ThrewTypeError?
  {
    match handsBack
    case ReturnsNothing => ReturnedUndefined
    case ResolvesVoid => Fulfilled(None)
    case ReturnsNative => AsPromise(native)
    case WrapsInPromise => Pending
  }

  /** What the error callbacks of a classic call do when the native side fails. */
  function Effects(callbacks: seq<Callback>, native: NativeResult, onError: OnError): (r: seq<Effect>)
    ensures native.Succeeded? ==> r == []
    ensures |r| <= |callbacks|
    ensures forall ef | ef in r :: native.Failed? && (ef == Warned(native.error) || (onError.Handler? && ef == HandlerCalled(onError.id, native.error)))
    ensures native.Failed? ==> (Warned(native.error) in r <==> WarnOnError in callbacks)
    ensures native.Failed? && onError.Handler? ==>
      (HandlerCalled(onError.id, native.error) in r <==> ForwardOnError in callbacks)
    decreases |callbacks|
  {
    if callbacks == [] || native.Succeeded? then []
    else
      var here :=
        match callbacks[0]
        case WarnOnError => [Warned(native.error)]
        case ForwardOnError => (if onError.Handler? then [HandlerCalled(onError.id, native.error)] else [])
        case _ => [];
      here + Effects(callbacks[1..], native, onError)
  }

  /** Callbacks that neither warn nor forward have no effects. */
  lemma {:induction false} NoErrorCallbacks(callbacks: seq<Callback>, native: NativeResult, onError: OnError)
    requires WarnOnError !in callbacks && ForwardOnError !in callbacks
    ensures Effects(callbacks, native, onError) == []
    decreases |callbacks|
  {
    if callbacks != [] && native.Failed? {
      assert callbacks[0] in callbacks;
      assert forall c :: c in callbacks[1..] ==> c in callbacks;
      NoErrorCallbacks(callbacks[1..], native, onError);
    }
  }

  function Observe(o: Outcome, native: NativeResult, onError: OnError): (r: Observation)
    ensures r.settlement.ThrewTypeError? <==> o.ThrowsMissing?
    ensures r.settlement.Pending? <==> o.Calls? && o.call.binding == Turbo && o.handsBack == WrapsInPromise
    ensures r.settlement.Rejected? ==> native == Failed(r.settlement.error)
    ensures r.settlement.Fulfilled? && r.settlement.value.Some? ==> native == Succeeded(r.settlement.value.value)
    ensures native.Succeeded? ==> r.effects == []
    ensures o.Calls? && o.call.binding == Turbo ==> forall ef | ef in r.effects :: ef.DroppedRejection?
    ensures o.Calls? && o.call.binding == Legacy ==> forall ef | ef in r.effects :: !ef.DroppedRejection?
  {
    match o
    case ThrowsMissing(_) => Observation(ThrewTypeError, [])
    case Calls(c, ret) =>
      if c.binding == Turbo then
        Observation(TurboSettle(ret, native),
                    if ret != ReturnsNative && native.Failed? then [DroppedRejection(native.error)] else [])
      else Observation(Settle(c.callbacks, ret, native), Effects(c.callbacks, native, onError))
  }

  /** The caller's `onError` of an operation, `DefaultHandler` for the others. */
  function HandlerOf(op: Operation): OnError {
    if op.PrintRawDataOp? then op.onError else DefaultHandler
  }

  function Run(t: Transport, env: Environment, tk: Toolkit, op: Operation, native: NativeResult): Observation
    requires op.ConnectPrinterOp? ==> AddressFits(t, op.address)
  {
    Observe(Dispatch(t, env, tk, op), native, HandlerOf(op))
  }

  // ---------------------------------------------------------------------------
  // Properties
  // ---------------------------------------------------------------------------

  /** USB never looks at the platform, nor at whether `printHex` exists. */
  lemma UsbIgnoresPlatform(e1: Environment, e2: Environment, tk: Toolkit, op: Operation)
    requires op.ConnectPrinterOp? ==> AddressFits(Usb, op.address)
    requires e1.isTurbo == e2.isTurbo
    ensures UsbPrinter(e1, tk, op) == UsbPrinter(e2, tk, op)
  {
  }

  /** The outcome with the module binding replaced. */
  function WithBinding(o: Outcome, m: NativeModule): Outcome {
    match o
    case Calls(c, ret) => Calls(c.(binding := m), ret)
    case ThrowsMissing(e) => o
  }

  /** Net builds the same native call whether or not the turbo modules are
      present; only the bound module object differs. */
  lemma NetIgnoresTurbo(e1: Environment, e2: Environment, tk: Toolkit, op: Operation)
    requires op.ConnectPrinterOp? ==> AddressFits(Net, op.address)
    requires e1.os == e2.os && e1.hasPrintHex == e2.hasPrintHex
    ensures NetPrinter(e1, tk, op) == WithBinding(NetPrinter(e2, tk, op), ModuleFor(e1.isTurbo))
  {
  }

  /** The raw-bytes payload: hex exactly on iOS for BLE and Net, base64 otherwise,
      and either way it decodes back to the caller's bytes. `printHex` is called
      with `{beep: true, cut: true}` exactly when iOS BLE or Net finds it; a
      turbo BLE module without it gets `printRawData(hex)`; a classic BLE module
      or a Net module without it throws. */
  lemma RawDataPayload(t: Transport, env: Environment, tk: Toolkit, data: seq<byte>, h: OnError)
    ensures var o := Dispatch(t, env, tk, PrintRawDataOp(data, h));
      var kind := if t != Usb && env.os == Ios then Hex else Base64;
      && (o.ThrowsMissing? <==> t != Usb && env.os == Ios && !env.hasPrintHex && (t == Net || !env.isTurbo))
      && (o.Calls? ==>
            && |o.call.args| >= 1 && o.call.args[0].Str?
            && Parse(o.call.args[0].s, kind) == Some(data)
            && (o.call.entry == PrintHex <==> t != Usb && env.os == Ios && env.hasPrintHex)
            && o.call.entry in {PrintHex, PrintRawData}
            && o.call.args[1..] == (if o.call.entry == PrintHex then [Opts(BeepAndCut)] else [])
            && o.call.callbacks == (if env.isTurbo && t != Net then [] else [ForwardOnError]))
  {
    RenderRoundTrip(data, if t != Usb && env.os == Ios then Hex else Base64);
  }

  /** The native arguments of `printText` (`bill` false) and `printBill` (`bill`
      true): on iOS, BLE and Net send the stripped text with `{beep: true, cut:
      true}`; everywhere else the payload is the base64 of the exchanged text with
      the merged options, followed by the caller's own options under turbo. */
  lemma PrintPayload(t: Transport, env: Environment, tk: Toolkit, text: string, opts: PrinterOptions, bill: bool)
    ensures var o := Dispatch(t, env, tk, if bill then PrintBillOp(text, opts) else PrintTextOp(text, opts));
      var merged := if bill then BillOptions(opts) else TextOptions(opts);
      && o.Calls? && o.call.entry == PrintRawData
      && o.call.callbacks == (if env.isTurbo && t != Net then [] else [WarnOnError])
      && (t != Usb && env.os == Ios ==>
            o.call.args == [Str(TextPreprocessingIOS(text).text), Opts(BeepAndCut)])
      && (t == Usb || env.os != Ios ==>
            && |o.call.args| >= 1 && o.call.args[0].Str?
            && Base64Decode(o.call.args[0].s) == Some(tk.exchangeText(text, merged))
            && o.call.args[1..] == (if env.isTurbo && t != Net then [Opts(opts)] else []))
  {
  }

  /** With the default `{}`, the text merge hands the exchange all-false finishing
      keys and the bill merge all-true ones, both with encoding `'UTF8'`. */
  lemma DefaultOptionsPayload(t: Transport, env: Environment, tk: Toolkit, text: string, bill: bool)
    requires t == Usb || env.os != Ios
    ensures var o := Dispatch(t, env, tk, if bill then PrintBillOp(text, NoOptions) else PrintTextOp(text, NoOptions));
      && o.Calls? && |o.call.args| >= 1 && o.call.args[0].Str?
      && Base64Decode(o.call.args[0].s) == Some(tk.exchangeText(text, if bill then BillDefaults else TextDefaults))
  {
    PrintPayload(t, env, tk, text, NoOptions, bill);
    EmptyOverrideIsDefaults(TextDefaults);
  }

  /** On iOS, BLE and Net ignore the caller's options, and text and bill printing
      are the same call. */
  lemma IosIgnoresOptions(t: Transport, env: Environment, tk: Toolkit, text: string, o1: PrinterOptions, o2: PrinterOptions)
    requires t != Usb && env.os == Ios
    ensures Dispatch(t, env, tk, PrintTextOp(text, o1)) == Dispatch(t, env, tk, PrintBillOp(text, o2))
  {
  }

  /** The promise `closeConn` returns on the classic path (and always on Net)
      resolves, whatever the native side does; a turbo Net module's rejected
      promise is dropped. */
  lemma LegacyCloseConnResolves(t: Transport, env: Environment, tk: Toolkit, native: NativeResult)
    requires !env.isTurbo || t == Net
    ensures Run(t, env, tk, CloseConnOp, native).settlement == Fulfilled(None)
    ensures Run(t, env, tk, CloseConnOp, native).effects ==
      (if env.isTurbo && native.Failed? then [DroppedRejection(native.error)] else [])
  {
  }

  /** Under turbo, USB and BLE hand back the native promise itself. */
  lemma TurboPassthrough(t: Transport, env: Environment, tk: Toolkit, op: Operation, native: NativeResult)
    requires env.isTurbo && t != Net
    requires op.InitOp? || op.GetDeviceListOp? || op.CloseConnOp? || (op.ConnectPrinterOp? && AddressFits(t, op.address))
    ensures Run(t, env, tk, op, native) == Observation(AsPromise(native), [])
  {
  }

  /** On the callback path, `init` resolves with nothing, `getDeviceList` and
      `connectPrinter` resolve with the native value, and all three reject with the
      native error. */
  lemma LegacyWrappedSettles(t: Transport, env: Environment, tk: Toolkit, op: Operation, native: NativeResult)
    requires !env.isTurbo
    requires op.InitOp? || op.GetDeviceListOp? || (op.ConnectPrinterOp? && AddressFits(t, op.address))
    ensures Run(t, env, tk, op, native).effects == []
    ensures native.Succeeded? ==>
      Run(t, env, tk, op, native).settlement == Fulfilled(if op.InitOp? then None else Some(native.value))
    ensures native.Failed? ==> Run(t, env, tk, op, native).settlement == Rejected(native.error)
  {
    var o := Dispatch(t, env, tk, op);
    NoErrorCallbacks(o.call.callbacks, native, HandlerOf(op));
  }

  /** A raw-data error reaches the caller's `onError` on the callback path (the
      default handler and a falsy one do nothing) and rejects the returned promise
      under turbo for USB and BLE; a turbo Net module's error rejects a promise
      the method drops. A success calls no handler. */
  lemma RawDataErrorForwarded(t: Transport, env: Environment, tk: Toolkit, data: seq<byte>, h: OnError, native: NativeResult)
    requires Dispatch(t, env, tk, PrintRawDataOp(data, h)).Calls?
    ensures var ob := Run(t, env, tk, PrintRawDataOp(data, h), native);
      && (native.Succeeded? ==> ob.effects == [])
      && (native.Failed? && !env.isTurbo ==>
            ob == Observation(ReturnedUndefined, if h.Handler? then [HandlerCalled(h.id, native.error)] else []))
      && (native.Failed? && env.isTurbo && t != Net ==> ob == Observation(Rejected(native.error), []))
      && (native.Failed? && env.isTurbo && t == Net ==>
            ob == Observation(ReturnedUndefined, [DroppedRejection(native.error)]))
  {
  }

  /** Text, bill and image printing never hand a native error to the caller on the
      callback path: it is only logged; a turbo Net module's error is dropped. */
  lemma PrintErrorsLogged(t: Transport, env: Environment, tk: Toolkit, op: Operation, e: int)
    requires !env.isTurbo || t == Net
    requires op.PrintTextOp? || op.PrintBillOp? || op.PrintImageOp?
    ensures Run(t, env, tk, op, Failed(e)).effects == (if env.isTurbo then [DroppedRejection(e)] else [Warned(e)])
    ensures Run(t, env, tk, op, Failed(e)).settlement ==
      (if op.PrintImageOp? then Fulfilled(None) else ReturnedUndefined)
  {
    var o := Dispatch(t, env, tk, op);
    assert o.Calls? && o.call.binding == ModuleFor(env.isTurbo) && o.call.callbacks == [WarnOnError];
    assert o.handsBack == (if op.PrintImageOp? then ResolvesVoid else if t == Net then ReturnsNothing else ReturnsNative);
  }

  /** With the turbo modules present, `NetPrinter` still passes callbacks, which a
      turbo module never calls, and discards the promise the module returns:
      `init`, `getDeviceList` and `connectPrinter` never settle, and no native
      error reaches a warning, a handler or the caller. */
  lemma NetTurboUnsettled(env: Environment, tk: Toolkit, op: Operation, native: NativeResult)
    requires env.isTurbo
    requires op.ConnectPrinterOp? ==> AddressFits(Net, op.address)
    requires !(op.PrintRawDataOp? && env.os == Ios && !env.hasPrintHex)
    ensures op.InitOp? || op.GetDeviceListOp? || op.ConnectPrinterOp? ==>
      Run(Net, env, tk, op, native).settlement == Pending
    ensures Run(Net, env, tk, op, native).settlement.Fulfilled? ==> Run(Net, env, tk, op, native).settlement.value.None?
    ensures !Run(Net, env, tk, op, native).settlement.Rejected?
    ensures Run(Net, env, tk, op, native).effects ==
      (if native.Failed? then [DroppedRejection(native.error)] else [])
  {
  }

  /** A missing `printHex` surfaces as a thrown error, not a rejection. */
  lemma MissingPrintHexThrows(t: Transport, env: Environment, tk: Toolkit, data: seq<byte>, h: OnError, native: NativeResult)
    requires t != Usb && env.os == Ios && !env.hasPrintHex && (t == Net || !env.isTurbo)
    ensures Run(t, env, tk, PrintRawDataOp(data, h), native) == Observation(ThrewTypeError, [])
  {
  }

  // ---------------------------------------------------------------------------
  // Corrected behaviour
  // ---------------------------------------------------------------------------

  /** The outcome with the transport replaced. */
  function WithTransport(o: Outcome, t: Transport): Outcome {
    match o
    case Calls(c, ret) => Calls(c.(transport := t), ret)
    case ThrowsMissing(e) => o
  }

  /** BLE's and Net's interface as evidently intended: raw data on iOS falls back
      to `printRawData` with the hex text when `printHex` is absent (the turbo BLE
      fallback, now on every path), and Net follows BLE's turbo convention of
      handing back the native promise instead of waiting on callbacks. */
  function FixedBleNet(t: Transport, env: Environment, tk: Toolkit, op: Operation): (r: Outcome)
    requires t != Usb
    requires op.ConnectPrinterOp? ==> AddressFits(t, op.address)
    ensures r.Calls? && r.call.transport == t && r.call.binding == ModuleFor(env.isTurbo)
  {
    match op
    case ConnectPrinterOp(a) => Wrapped(t, env, ConnectPrinter, AddressArgs(a), ResolveWith)
    case PrintRawDataOp(data, _) =>
      if env.os == Ios then
        var hex := Render(data, Hex);
        var m := ModuleFor(env.isTurbo);
        var callbacks := if env.isTurbo then [] else [ForwardOnError];
        if env.hasPrintHex then Calls(NativeCall(t, m, PrintHex, [Str(hex), Opts(BeepAndCut)], callbacks), ReturnsNative)
        else Calls(NativeCall(t, m, PrintRawData, [Str(hex)], callbacks), ReturnsNative)
      else WithTransport(RawBase64(Ble, env, data), t)
    case _ => WithTransport(BlePrinter(env, tk, op), t)
  }

  /** The corrected interface of a transport; USB is unchanged. */
  function FixedDispatch(t: Transport, env: Environment, tk: Toolkit, op: Operation): Outcome
    requires op.ConnectPrinterOp? ==> AddressFits(t, op.address)
  {
    if t == Usb then UsbPrinter(env, tk, op) else FixedBleNet(t, env, tk, op)
  }

  function FixedRun(t: Transport, env: Environment, tk: Toolkit, op: Operation, native: NativeResult): Observation
    requires op.ConnectPrinterOp? ==> AddressFits(t, op.address)
  {
    Observe(FixedDispatch(t, env, tk, op), native, HandlerOf(op))
  }

  /** The corrected interfaces never throw, and raw data still decodes back to the
      caller's bytes: hex on iOS for BLE and Net, base64 otherwise. */
  lemma FixedRawDataPayload(t: Transport, env: Environment, tk: Toolkit, data: seq<byte>, h: OnError)
    ensures var o := FixedDispatch(t, env, tk, PrintRawDataOp(data, h));
      && o.Calls? && |o.call.args| >= 1 && o.call.args[0].Str?
      && Parse(o.call.args[0].s, if t != Usb && env.os == Ios then Hex else Base64) == Some(data)
      && (o.call.entry == PrintHex <==> t != Usb && env.os == Ios && env.hasPrintHex)
  {
    RenderRoundTrip(data, if t != Usb && env.os == Ios then Hex else Base64);
  }

  /** Under turbo, every transport hands back the native promise of `init`,
      `getDeviceList`, `connectPrinter` and `closeConn`. */
  lemma FixedTurboPassthrough(t: Transport, env: Environment, tk: Toolkit, op: Operation, native: NativeResult)
    requires env.isTurbo
    requires op.InitOp? || op.GetDeviceListOp? || op.CloseConnOp? || (op.ConnectPrinterOp? && AddressFits(t, op.address))
    ensures FixedRun(t, env, tk, op, native) == Observation(AsPromise(native), [])
  {
  }

  /** Under turbo, every print operation of every transport rejects its returned
      promise with the native error, and nothing is dropped. */
  lemma FixedTurboErrorsReported(t: Transport, env: Environment, tk: Toolkit, op: Operation, e: int)
    requires env.isTurbo
    requires op.PrintTextOp? || op.PrintBillOp? || op.PrintRawDataOp? || op.PrintImageOp?
    ensures FixedRun(t, env, tk, op, Failed(e)) == Observation(Rejected(e), [])
  {
  }

  /** The correction changes nothing but the broken cases: with the classic
      modules, whenever the original does not throw, the caller observes the same;
      with the turbo modules, BLE is unchanged. */
  lemma FixedAgrees(t: Transport, env: Environment, tk: Toolkit, op: Operation, native: NativeResult)
    requires op.ConnectPrinterOp? ==> AddressFits(t, op.address)
    ensures !env.isTurbo && Dispatch(t, env, tk, op).Calls? ==>
      FixedRun(t, env, tk, op, native) == Run(t, env, tk, op, native)
    ensures env.isTurbo && t == Ble ==> FixedDispatch(t, env, tk, op) == Dispatch(t, env, tk, op)
  {
  }

  /** With the classic modules, the raw data that made BLE and Net throw on iOS
      now reaches the printer, and its error reaches the caller's `onError`. */
  lemma FixedMissingPrintHex(t: Transport, env: Environment, tk: Toolkit, data: seq<byte>, h: OnError, e: int)
    requires t != Usb && env.os == Ios && !env.hasPrintHex && !env.isTurbo
    ensures FixedDispatch(t, env, tk, PrintRawDataOp(data, h)) ==
      Calls(NativeCall(t, Legacy, PrintRawData, [Str(Render(data, Hex))], [ForwardOnError]), ReturnsNative)
    ensures FixedRun(t, env, tk, PrintRawDataOp(data, h), Failed(e)) ==
      Observation(ReturnedUndefined, if h.Handler? then [HandlerCalled(h.id, e)] else [])
  {
  }
}
