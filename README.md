# Thermal receipt printer bridge: a verified model

This project models the JavaScript layer of `react-native-thermal-receipt-printer`
(`src/index.ts`). It is the glue between an application and three native printer
modules: USB, Bluetooth LE and network. The model covers:

- the merge of a caller's `PrinterOptions` with the text defaults and the bill
  defaults, followed by the base64 rendering of the exchanged command bytes
  (`textTo64Buffer`, `billTo64Buffer`), in `options.dfy`;
- `bytesToString`, in `bytes.dfy`. A `BufferHelper` accumulator is filled in
  place, turned back into one buffer, and rendered as lowercase base16 or as
  RFC 4648 base64. The `codec.dfy` functions specify both renderings. Each
  comes with a decoder and a round-trip proof;
- the iOS text preprocessor `textPreprocessingIOS`, in `markup.dfy`. It runs
  seven global `replace(/<\/?X>/g, '')` passes, one each for X = CB, CM, CD, C,
  D, B, M in that order. Each pass is modelled as a single left-to-right scan:
  the closing form is tried first, a match is deleted, and the scan resumes
  after the match;
- the dispatch of `USBPrinter`, `BLEPrinter` and `NetPrinter`, in
  `printers.dfy`. A call is decided by five things: the transport, the
  operation, the turbo flag, the platform, and whether the native module has
  `printHex`. From these the model computes which native entry is called, on
  which module object, with which arguments and callbacks, and what is handed
  back. `Observe` then gives what the caller sees when the native side
  succeeds or fails.

The external collaborators `EPToolkit.exchange_text` and
`EPToolkit.exchange_image` are function-valued parameters (`TextExchange`,
`Toolkit`). The model says only how the bridge treats their results.

The model follows the code as written. Two things in it look unintended;
"## Findings" lists them, and `printers.dfy` gives a corrected dispatch
(`FixedDispatch`) with the intended properties proved about it:

- A classic BLE module on iOS calls `printHex` without checking that it
  exists (`src/index.ts:283-291`). So does `NetPrinter` on iOS, in every mode
  (`src/index.ts:382-390`). If the entry is absent, reading it yields
  `undefined`, and calling that throws. The model records this as
  `ThrowsMissing(PrintHex)`. The comment at `src/index.ts:280` says that a
  turbo module without `printHex` falls back to `printRawData`, but only the turbo
  BLE path does so (`src/index.ts:281`). That fallback hands `printRawData`
  the hex text, where every other raw-bytes path (`printRawData` off iOS, and
  every `printImage`) hands it base64; on iOS, `printText` and `printBill` hand
  it plain text.
- `NetPrinter` always uses the callback convention. With the turbo modules
  present it is bound to the turbo Net module, whose methods take no callbacks
  and return promises (`src/NativeRNNetPrinter.ts:17-25`). Assuming the turbo
  runtime ignores the extra callback arguments rather than throwing on them,
  the callbacks never run and the promise the module returns is dropped:
  `init`, `getDeviceList` and `connectPrinter` never settle, and print errors
  never reach the caller.

## Model

| member | source | states |
|---|---|---|
| Codec.HexValue | src/index.ts:45 | a character has a hex value exactly when it is a lowercase hex digit, and the digit of that value is the character itself |
| Codec.HexEncode | src/index.ts:45 | `toString('hex')` writes two characters per byte, all of them hex digits |
| Codec.HexDecode | src/index.ts:45 | an accepted string has exactly two characters per decoded byte |
| Codec.HexRoundTrip | src/index.ts:45 | decoding the hex rendering gives back the original bytes |
| Codec.HexDecodeCanonical | src/index.ts:45 | every string the hex decoder accepts is the rendering of the bytes it decodes to |
| Codec.Base64Value | src/index.ts:45 | a character has a base64 value exactly when it is in the RFC 4648 alphabet, and the alphabet character of that value is the character itself |
| Codec.Base64Encode | src/index.ts:45 | `toString('base64')` writes `4*ceil(n/3)` characters; each is in the alphabet, except `=` in one of the last two places |
| Codec.Base64Decode | src/index.ts:45 | an accepted string has four characters per started group of three decoded bytes |
| Codec.Base64DecodeCanonical | src/index.ts:45 | every string the base64 decoder accepts is the rendering of the bytes it decodes to |
| Codec.Base64RoundTrip | src/index.ts:45 | decoding the base64 rendering gives back the original bytes, for every length |
| Bytes.RenderRoundTrip | src/index.ts:41-46 | for both renderings `bytesToString` asks for, the matching decoder inverts the rendering |
| Bytes.BufferHelper.constructor | src/index.ts:42 | a new accumulator holds no bytes |
| Bytes.BufferHelper.Concat | src/index.ts:43 | `concat` appends one chunk, and the accumulated bytes grow by exactly that chunk |
| Bytes.BufferHelper.ToBuffer | src/index.ts:44 | `toBuffer` returns all chunks concatenated in order |
| Bytes.EncodeHex | src/index.ts:45 | the byte-by-byte hex loop produces the hex rendering |
| Bytes.EncodeBase64 | src/index.ts:45 | the group-by-group base64 loop, padded tail included, produces the base64 rendering |
| Bytes.BytesToString | src/index.ts:41-46 | `bytesToString(data, kind)` renders exactly `data`, and the result decodes back to `data` |
| Options.Spread | src/index.ts:56-59 | `{...defaults, ...opts}`: a key the caller wrote wins, even when its value is `undefined`; a key left out keeps the default |
| Options.TextOptions | src/index.ts:48-59 | the text merge: a key left out becomes `false` for beep, cut and tailingLine and `'UTF8'` for encoding; a written key keeps the caller's value |
| Options.BillOptions | src/index.ts:64-74 | the bill merge: a key left out becomes `true` for beep, cut and tailingLine and `'UTF8'` for encoding; a written key keeps the caller's value |
| Options.TextTo64Buffer | src/index.ts:48-62 | the result decodes to the bytes that the text exchange produced from the text-merged options |
| Options.BillTo64Buffer | src/index.ts:64-77 | the result decodes to the bytes that the text exchange produced from the bill-merged options |
| Options.EmptyOverrideIsDefaults | src/index.ts:49-59 | merging `{}` yields exactly the defaults |
| Options.FullOverrideIgnoresDefaults | src/index.ts:56-59 | when the caller gives every key, the defaults play no part, and text and bill merges agree |
| Options.TextAndBillDiffer | src/index.ts:48-77 | the two merges share the encoding default, and differ in a finishing key exactly when the caller left that key out |
| Markup.MatchLength | src/index.ts:86-92 | the match of `<\/?X>` at the front is `</X>` when the text starts with it, otherwise `<X>` when the text starts with that, otherwise absent; the matched text is exactly that tag |
| Markup.TextPreprocessingIOS | src/index.ts:79-95 | the options are always `{beep: true, cut: true}`, and the text is a subsequence of the input |
| Markup.StripTag | src/index.ts:86-92 | one global replace pass deletes each `</X>` or `<X>` it meets and only deletes: its result is a subsequence of its input |
| Markup.StripTagChanges | src/index.ts:86 | a pass returns its input unchanged when no `<X>` or `</X>` occurs in it, and a strictly shorter text when one does |
| Markup.NoAngleUnchanged | src/index.ts:86 | a pass leaves text without `<` unchanged |
| Markup.PlainPrefix | src/index.ts:86 | a prefix without `<` passes through a pass untouched, and the scan continues after it |
| Markup.AngleKept | src/index.ts:86 | a `<` that starts neither `</X>` nor `<X>` is kept, and the scan moves one place on |
| Markup.OpenTagPrefix | src/index.ts:86 | an `<X>` at the front is deleted, and the scan resumes right after it |
| Markup.CloseTagPrefix | src/index.ts:86 | a `</X>` at the front is deleted, and the scan resumes right after it |
| Markup.PassSubsequence | src/index.ts:86-92 | chaining another pass keeps the result a subsequence of the original text |
| Markup.PreprocessedText | src/index.ts:79-95 | the preprocessed text is a subsequence of the input, no longer than it, and equal to it when the input has no `<` |
| Markup.PreprocessedOptions | src/index.ts:80-83 | the options do not depend on the text |
| Markup.BoldPairKept | src/index.ts:86-90 | the passes for tags other than B leave `<B>w1</B>w2` alone when w1 and w2 have no `<` |
| Markup.BoldPairRemoved | src/index.ts:85-92 | `<B>w1</B>w2` is preprocessed to `w1w2` when w1 and w2 have no `<` |
| Markup.BoldExample | src/index.ts:79-95 | `"<B>Hello</B>\nWorld"` is preprocessed to `"Hello\nWorld"` |
| Markup.PassCanFormTag | src/index.ts:86 | a single pass can form a new `<X>` out of what its deletions leave, and the result still contains the tag |
| Markup.NestedTagSurvives | src/index.ts:85-92 | `<C<B>w` is preprocessed to `<Cw`: the C pass has already run when deleting `<B>` makes a `<C` prefix |
| Markup.PreprocessorCanLeaveTag | src/index.ts:85-92 | `"<C<B>>"` is preprocessed to `"<C>"`, so tags can survive preprocessing |
| Printers.ImageToBuffer | src/index.ts:97-100 | the result decodes to the bytes that the image exchange produced at the default threshold 60 |
| Printers.UsbPrinter | src/index.ts:102-186 | every USB operation makes a native USB call, on the turbo object exactly when `isTurbo` |
| Printers.BlePrinter | src/index.ts:188-313 | BLE calls go to the module `isTurbo` selects; a BLE operation throws exactly for classic-module raw data on iOS without `printHex` |
| Printers.NetPrinter | src/index.ts:315-405 | Net calls go to the module `isTurbo` selects and pass callbacks (except `closeConn`); a Net operation throws exactly for raw data on iOS without `printHex` |
| Printers.Settle | src/index.ts:107-112 | on a classic module a call never pends or throws; it rejects only with the native error, and a wrapping promise rejects exactly when the reject callback was passed; a resolved value is the native one |
| Printers.TurboSettle | src/index.ts:103-106 | on a turbo module only a returned native promise carries the native result, and a wrapper waiting on callbacks pends exactly when the method builds one |
| Printers.Effects | src/index.ts:172-176 | the error callbacks act only on a failure, once per callback at most: the error is warned exactly when a warning callback was passed, and reaches the caller's handler exactly when a forwarder was passed |
| Printers.Observe | src/index.ts:102-186 | a thrown error exactly for a missing entry, pending exactly for a turbo call wrapped in callbacks; a rejection or a resolved value is the native one; a success has no effects; a turbo call's only effects are dropped rejections, a classic call has none |
| Printers.UsbIgnoresPlatform | src/index.ts:102-186 | the USB outcome does not depend on the platform or on `printHex` |
| Printers.NetIgnoresTurbo | src/index.ts:315-405 | the native call Net makes is the same with and without the turbo modules, except for the bound module object |
| Printers.RawDataPayload | src/index.ts:276-304 | the raw-data payload is hex exactly on iOS BLE and Net, base64 otherwise, and decodes back to the caller's bytes; `printHex` with `{beep: true, cut: true}` is called exactly when iOS BLE or Net finds it; turbo BLE without it calls `printRawData(hex)` with no options; the other iOS paths without it throw; callbacks are `[onError forwarder]` except on the turbo USB and BLE paths |
| Printers.PrintPayload | src/index.ts:236-274 | text and bill printing on iOS BLE and Net send the stripped text with `{beep: true, cut: true}`; everywhere else they send the base64 of the exchanged text with the merged options, plus the caller's unmerged options under turbo USB and BLE; errors are warned on the callback path |
| Printers.DefaultOptionsPayload | src/index.ts:151-165 | with the default `{}`, text printing exchanges with all-false finishing keys and bill printing with all-true ones, both with encoding `'UTF8'` |
| Printers.IosIgnoresOptions | src/index.ts:236-274 | on iOS BLE and Net, the caller's options are ignored, and text and bill printing make the same call |
| Printers.LegacyCloseConnResolves | src/index.ts:141-148 | on the classic path, and always on Net, `closeConn` resolves with no value, whatever the native side does; a turbo Net module's rejection is dropped |
| Printers.TurboPassthrough | src/index.ts:103-149 | under turbo, USB and BLE `init`, `getDeviceList`, `connectPrinter` and `closeConn` hand back the native promise unchanged |
| Printers.LegacyWrappedSettles | src/index.ts:103-340 | for USB (:103-139), BLE (:189-225) and Net (:316-340) with the classic modules, `init` resolves with no value, `getDeviceList` and `connectPrinter` resolve with the native value, and all three reject with the native error |
| Printers.RawDataErrorForwarded | src/index.ts:167-399 | for USB (:167-177), BLE (:276-304) and Net (:378-399) with the classic modules, a raw-data error reaches the caller's `onError`, while the default and falsy handlers do nothing; under turbo it rejects the returned promise on USB and BLE, and rejects a dropped promise on Net; a success calls no handler |
| Printers.PrintErrorsLogged | src/index.ts:348-376 | a text, bill or image print error never rejects what the caller gets: with the classic modules it is only logged, and turbo Net drops it |
| Printers.MissingPrintHexThrows | src/index.ts:380-390 | a missing `printHex` on an unguarded path throws; it is not a rejection |
| Printers.NetTurboUnsettled | src/index.ts:315-405 | with the turbo modules, Net `init`, `getDeviceList` and `connectPrinter` never settle, nothing Net hands back is ever rejected, and no native error reaches the caller: each is a dropped rejection |
| Printers.FixedBleNet | src/index.ts:276-291 | the corrected BLE and Net interface never throws, and calls the module `isTurbo` selects on its own transport |
| Printers.FixedRawDataPayload | src/index.ts:276-304 | with the correction, raw data always reaches the printer as hex on iOS BLE and Net and base64 otherwise, decodes back to the caller's bytes, and goes to `printHex` exactly when it exists |
| Printers.FixedTurboPassthrough | src/index.ts:103-149 | with the correction, under turbo every transport hands back the native promise of `init`, `getDeviceList`, `connectPrinter` and `closeConn` |
| Printers.FixedTurboErrorsReported | src/index.ts:151-404 | for the print operations of USB (:151-185), BLE (:236-313) and Net (:348-404), with the correction, under turbo every print operation of every transport rejects its promise with the native error |
| Printers.FixedAgrees | src/index.ts:188-313 | the correction changes only the broken cases: with the classic modules the caller observes the same wherever the original does not throw, and turbo BLE is unchanged |
| Printers.FixedMissingPrintHex | src/index.ts:280-281 | with the correction, a classic BLE or Net module on iOS without `printHex` gets `printRawData(hex)` with the `onError` forwarder, and its error reaches the caller's handler |

## Left out

- The native modules themselves and the Android package are not part of this model; of the turbo specifications (`src/NativeRNNetPrinter.ts:16-29`) the model uses only that their methods take no callbacks and return promises. A native call is a `NativeCall` record, and its result is a parameter (`NativeResult`).
- Promises are not modelled as runtime objects with microtask ordering. Only their final settlement is modelled (`Settlement`). A call on a classic module reports through its callbacks; a call on a turbo module is assumed to ignore any callbacks passed to it, without throwing, and to report only through the promise it returns.
- `EPToolkit.exchange_text` and `EPToolkit.exchange_image` are external. They are parameters, so how they encode text and images is not modelled, and neither is a failure of `exchange_image` inside the async `printImage`.
- `utils/buffer-helper.ts` is not part of this model. `BufferHelper` is modelled from its use at `src/index.ts:42-44`: `concat` appends a chunk, and `toBuffer` concatenates the chunks.
- `Buffer.from` copies the bytes exactly; the model skips that copy.
- The diagnostic `console.warn` is recorded only as a `Warned` effect; the console itself is left out.
- `NetPrinterEventEmitter` and the discovery event names (`src/index.ts:407-413`) are event plumbing with no logic of their own.
- Codec.HexDecode: it accepts only lowercase digits, the form `toString('hex')` produces. Node's own hex reader, which is lenient, is not modelled.
- Codec.Base64Decode: it accepts only canonical, padded input, the form `toString('base64')` produces. Node's lenient base64 reader is not modelled.
- Printers.Dispatch: a call to `connectPrinter` with an address of another transport's shape is excluded by its `requires`. TypeScript's parameter types exclude it in the source.
- Printers.NetIgnoresTurbo: it states only that the native call is the same in both modes. The caller does not observe the same, because a turbo module never runs the callbacks Net passes (Printers.NetTurboUnsettled).
- Printers.FixedBleNet: its fallback hands the hex text to `printRawData`, as the turbo BLE path does; whether a native `printRawData` accepts hex is outside this model. On iOS the native `printRawData` already receives text that is not base64, because `printText` and `printBill` hand it the stripped plain text there.

## Findings

| source | as written | input that shows it | evidently intended | confidence | as-written member | corrected member |
|---|---|---|---|---|---|---|
| src/index.ts:283-291 | a classic BLE module on iOS calls `printHex` without checking that it exists | `BLEPrinter.printRawData(bytes)` on iOS with a classic module that has no `printHex`: a TypeError is thrown | fall back to `printRawData` with the hex text, as the turbo path at `src/index.ts:281` does | medium, not executed | Printers.MissingPrintHexThrows | Printers.FixedMissingPrintHex |
| src/index.ts:380-390 | `NetPrinter` on iOS calls `printHex` without checking that it exists, in every mode | `NetPrinter.printRawData(bytes)` on iOS with a Net module that has no `printHex`: a TypeError is thrown | the same fallback as BLE | medium, not executed | Printers.MissingPrintHexThrows | Printers.FixedMissingPrintHex |
| src/index.ts:316-346 | `NetPrinter` wraps every call in callbacks even when bound to the turbo module, which takes none and returns a promise | `NetPrinter.init()` with the turbo modules present, assuming the extra arguments are ignored: the promise never settles | hand back the turbo module's promise, as `USBPrinter` and `BLEPrinter` do | medium, not executed | Printers.NetTurboUnsettled | Printers.FixedTurboPassthrough |
| src/index.ts:348-399 | the Net print methods drop the promise the turbo module returns | `NetPrinter.printText("x")` with the turbo modules present and a failing printer, assuming the extra arguments are ignored: the error is neither logged nor seen by the caller | return the native promise, so that its rejection reaches the caller | medium, not executed | Printers.NetTurboUnsettled | Printers.FixedTurboErrorsReported |
