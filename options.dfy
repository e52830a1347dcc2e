/**
  Printer options and the shallow merge `{...defaultOptions, ...opts}` that
  `textTo64Buffer` and `billTo64Buffer` perform before handing text to the
  external text-exchange utility.

  A caller's `PrinterOptions` object may leave a key out, set it to
  `undefined`, or give it a value. Object spread copies every key the caller
  wrote, including one set to `undefined`, so the three cases are kept apart.
 */
module Options {
  import opened Wrappers
  import opened Codec

  /** One optional key of a caller's options object. */
  datatype Field<T> = Omitted | Undefined | Given(value: T) {

    /** The value of a key the caller wrote (`None` for `undefined`). */
    function Written(): Option<T>
      requires !Omitted?
    {
      if Given? then Some(value) else None
    }
  }

  /** `PrinterOptions`: every key optional. */
  datatype PrinterOptions = PrinterOptions(
    beep: Field<bool>,
    cut: Field<bool>,
    tailingLine: Field<bool>,
    encoding: Field<string>)

  /** The options object `{}` (the default argument of `printText` and `printBill`). */
  const NoOptions: PrinterOptions := PrinterOptions(Omitted, Omitted, Omitted, Omitted)

  /** The options object `{beep: true, cut: true}`. */
  const BeepAndCut: PrinterOptions := PrinterOptions(Given(true), Given(true), Omitted, Omitted)

  /** The merged object handed to `exchange_text`; `None` is a key whose value is `undefined`. */
  datatype ExchangeOptions = ExchangeOptions(
    beep: Option<bool>,
    cut: Option<bool>,
    tailingLine: Option<bool>,
    encoding: Option<string>)

  /** Defaults of plain-text printing. */
  const TextDefaults: ExchangeOptions := ExchangeOptions(Some(false), Some(false), Some(false), Some("UTF8"))

  /** Defaults of bill printing. */
  const BillDefaults: ExchangeOptions := ExchangeOptions(Some(true), Some(true), Some(true), Some("UTF8"))

  /** The value a key has after spreading `over` on top of `base`. */
  function Override<T>(base: Option<T>, over: Field<T>): Option<T> {
    match over
    case Omitted => base
    case Undefined => None
    case Given(v) => Some(v)
  }

  /** `{...base, ...over}`: a key the caller wrote wins, any other keeps the base value. */
  function Spread(base: ExchangeOptions, over: PrinterOptions): (r: ExchangeOptions)
    ensures over.beep.Omitted? ==> r.beep == base.beep
    ensures over.cut.Omitted? ==> r.cut == base.cut
    ensures over.tailingLine.Omitted? ==> r.tailingLine == base.tailingLine
    ensures over.encoding.Omitted? ==> r.encoding == base.encoding
    ensures !over.beep.Omitted? ==> r.beep == over.beep.Written()
    ensures !over.cut.Omitted? ==> r.cut == over.cut.Written()
    ensures !over.tailingLine.Omitted? ==> r.tailingLine == over.tailingLine.Written()
    ensures !over.encoding.Omitted? ==> r.encoding == over.encoding.Written()
  {
    ExchangeOptions(
      Override(base.beep, over.beep),
      Override(base.cut, over.cut),
      Override(base.tailingLine, over.tailingLine),
      Override(base.encoding, over.encoding))
  }

  /** Options of `textTo64Buffer`. */
  function TextOptions(opts: PrinterOptions): (r: ExchangeOptions)
    ensures r.beep == (if opts.beep.Omitted? then Some(false) else opts.beep.Written())
    ensures r.cut == (if opts.cut.Omitted? then Some(false) else opts.cut.Written())
    ensures r.tailingLine == (if opts.tailingLine.Omitted? then Some(false) else opts.tailingLine.Written())
    ensures r.encoding == (if opts.encoding.Omitted? then Some("UTF8") else opts.encoding.Written())
  {
    Spread(TextDefaults, opts)
  }

  /** Options of `billTo64Buffer`. */
  function BillOptions(opts: PrinterOptions): (r: ExchangeOptions)
    ensures r.beep == (if opts.beep.Omitted? then Some(true) else opts.beep.Written())
    ensures r.cut == (if opts.cut.Omitted? then Some(true) else opts.cut.Written())
    ensures r.tailingLine == (if opts.tailingLine.Omitted? then Some(true) else opts.tailingLine.Written())
    ensures r.encoding == (if opts.encoding.Omitted? then Some("UTF8") else opts.encoding.Written())
  {
    Spread(BillDefaults, opts)
  }

  /** `EPToolkit.exchange_text`: only its declaration is visible, so it is a parameter. */
  type TextExchange = (string, ExchangeOptions) -> seq<byte>

  /** `textTo64Buffer`: the base64 rendering of the command bytes for `text`. */
  function TextTo64Buffer(exchange: TextExchange, text: string, opts: PrinterOptions): (r: string)
    ensures Base64Decode(r) == Some(exchange(text, TextOptions(opts)))
  {
    var buffer := exchange(text, TextOptions(opts));
    Base64RoundTrip(buffer);
    Base64Encode(buffer)
  }

  /** `billTo64Buffer`: the same pipeline with the bill defaults. */
  function BillTo64Buffer(exchange: TextExchange, text: string, opts: PrinterOptions): (r: string)
    ensures Base64Decode(r) == Some(exchange(text, BillOptions(opts)))
  {
    var buffer := exchange(text, BillOptions(opts));
    Base64RoundTrip(buffer);
    Base64Encode(buffer)
  }

  /** Merging an empty override yields exactly the defaults. */
  lemma EmptyOverrideIsDefaults(base: ExchangeOptions)
    ensures Spread(base, NoOptions) == base
    ensures TextOptions(NoOptions) == TextDefaults
    ensures BillOptions(NoOptions) == BillDefaults
  {
  }

  /** With every key given, the defaults play no part and text and bill agree. */
  lemma FullOverrideIgnoresDefaults(opts: PrinterOptions, base1: ExchangeOptions, base2: ExchangeOptions)
    requires opts.beep.Given? && opts.cut.Given? && opts.tailingLine.Given? && opts.encoding.Given?
    ensures Spread(base1, opts) == Spread(base2, opts)
    ensures TextOptions(opts) == BillOptions(opts)
  {
  }

  /** Text and bill merges differ exactly in the finishing keys the caller left out. */
  lemma TextAndBillDiffer(opts: PrinterOptions)
    ensures TextOptions(opts).encoding == BillOptions(opts).encoding
    ensures TextOptions(opts).beep != BillOptions(opts).beep <==> opts.beep.Omitted?
    ensures TextOptions(opts).cut != BillOptions(opts).cut <==> opts.cut.Omitted?
    ensures TextOptions(opts).tailingLine != BillOptions(opts).tailingLine <==> opts.tailingLine.Omitted?
  {
  }
}
