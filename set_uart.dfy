/**
 * The `set-uart` console command: baud rate, word length, stop bits and
 * parity, each optional, are applied to UART1 one after the other; the
 * first one that is refused ends the command, leaving the earlier ones
 * applied and nothing saved. When none is refused, the configuration read
 * from NVS, with the given fields replaced, is saved back.
 */
module SetUart {
  import opened Esp
  import opened Config

  const UART_DATA_BITS_MAX := 4
  const UART_STOP_BITS_1_5 := 2
  const UART_STOP_BITS_2 := 3
  const UART_PARITY_EVEN := 2
  const UART_PARITY_ODD := 3

  /** The stop-bit count given on the command line: exactly 1, 1.5 or 2, or any other number. */
  datatype StopArg = StopOne | StopOneAndHalf | StopTwo | StopOther

  /** The options given to the command; None for an option not given. */
  datatype Args = Args(baud: Option<int>, wordLength: Option<int>, stopBits: Option<StopArg>, parity: Option<string>)

  /** The line settings of UART1 as the driver holds them. */
  datatype Line = Line(baud: int, dataBits: int, stopBits: int, parity: int)

  /** What the command leaves behind: the line settings, the configuration it built, and whether it saved it. */
  datatype Outcome = Outcome(line: Line, conf: UartConfig, saved: bool)

  function Abs(n: int): nat
  {
    if n < 0 then -n else n
  }

  /** The achieved rate is within 0.05 % of the requested one: `|achieved - req| < req * 0.0005`, in integers. */
  predicate BaudWithinTolerance(req: int, achieved: int)
  {
    2000 * Abs(achieved - req) < req
  }

  /** A word length of 5 to 8 bits, as the driver's code `w - 5`. */
  function WordLengthCode(w: int): (r: Option<int>)
    ensures r.Some? <==> 5 <= w <= 8
    ensures r.Some? ==> r.value == w - 5 && 0 <= r.value < UART_DATA_BITS_MAX
  {
    if 0 <= w - 5 < UART_DATA_BITS_MAX then Some(w - 5) else None
  }

  /** The driver's stop-bit code: 1, 1.5 and 2 are codes 1, 2 and 3. */
  function StopBitsCode(s: StopArg): (r: Option<int>)
    ensures r.Some? <==> s != StopOther
    ensures r.Some? ==> UART_STOP_BITS_1 <= r.value <= UART_STOP_BITS_2
  {
    match s
    case StopOne => Some(UART_STOP_BITS_1)
    case StopOneAndHalf => Some(UART_STOP_BITS_1_5)
    case StopTwo => Some(UART_STOP_BITS_2)
    case StopOther => None
  }

  /** The driver's parity code for "DIS", "EVEN" or "ODD". */
  function ParityCode(p: string): (r: Option<int>)
    ensures r.Some? <==> p == "DIS" || p == "EVEN" || p == "ODD"
    ensures r == Some(UART_PARITY_DISABLE) <==> p == "DIS"
  {
    if p == "DIS" then Some(UART_PARITY_DISABLE)
    else if p == "EVEN" then Some(UART_PARITY_EVEN)
    else if p == "ODD" then Some(UART_PARITY_ODD)
    else None
  }

  /** The zero-initialised struct after `nvs_get_blob`: the stored configuration when one of the right size is stored. */
  function StoredConf(nvs: Nvs): UartConfig
  {
    if UART_CONF_KEY in nvs.blobs && nvs.blobs[UART_CONF_KEY].UartBlob? then nvs.blobs[UART_CONF_KEY].conf
    else ZeroUartConfig
  }

  /** Each option is accepted when it is not given, or given with a value the command supports. */
  predicate BaudOk(a: Args, achieved: int) { a.baud.Some? ==> BaudWithinTolerance(a.baud.value, achieved) }
  predicate WordLengthOk(a: Args) { a.wordLength.Some? ==> WordLengthCode(a.wordLength.value).Some? }
  predicate StopBitsOk(a: Args) { a.stopBits.Some? ==> StopBitsCode(a.stopBits.value).Some? }
  predicate ParityOk(a: Args) { a.parity.Some? ==> ParityCode(a.parity.value).Some? }

  /**
   * The command's effect, step by step from `line` and the configuration
   * read from NVS; `achieved` is the rate the driver reports after the
   * requested baud rate is set.
   */
  function Configure(line: Line, conf: UartConfig, a: Args, achieved: int): Outcome
  {
    if !BaudOk(a, achieved) then Outcome(line, conf, false)
    else
      var line1 := if a.baud.Some? then line.(baud := achieved) else line;
      var conf1 := if a.baud.Some? then conf.(baudRate := achieved) else conf;
      if !WordLengthOk(a) then Outcome(line1, conf1, false)
      else
        var line2 := if a.wordLength.Some? then line1.(dataBits := WordLengthCode(a.wordLength.value).value) else line1;
        var conf2 := if a.wordLength.Some? then conf1.(dataBits := WordLengthCode(a.wordLength.value).value) else conf1;
        if !StopBitsOk(a) then Outcome(line2, conf2, false)
        else
          var line3 := if a.stopBits.Some? then line2.(stopBits := StopBitsCode(a.stopBits.value).value) else line2;
          var conf3 := if a.stopBits.Some? then conf2.(stopBits := StopBitsCode(a.stopBits.value).value) else conf2;
          if !ParityOk(a) then Outcome(line3, conf3, false)
          else
            var line4 := if a.parity.Some? then line3.(parity := ParityCode(a.parity.value).value) else line3;
            var conf4 := if a.parity.Some? then conf3.(parity := ParityCode(a.parity.value).value) else conf3;
            Outcome(line4, conf4, true)
  }

  /** The configuration is saved exactly when every given option is accepted. */
  lemma SavedIffAllAccepted(line: Line, conf: UartConfig, a: Args, achieved: int)
    ensures Configure(line, conf, a, achieved).saved <==>
      BaudOk(a, achieved) && WordLengthOk(a) && StopBitsOk(a) && ParityOk(a)
  {
  }

  /**
   * Each line setting is changed exactly when its option is given and
   * accepted and every earlier option was accepted: a refusal keeps what
   * was applied before it and applies nothing after it. A refused baud
   * rate is set back to the old one.
   */
  lemma AppliedUpToFirstRefusal(line: Line, conf: UartConfig, a: Args, achieved: int)
    ensures var o := Configure(line, conf, a, achieved);
      o.line.baud == (if a.baud.Some? && BaudOk(a, achieved) then achieved else line.baud)
      && o.line.dataBits == (if BaudOk(a, achieved) && a.wordLength.Some? && WordLengthOk(a)
                             then a.wordLength.value - 5 else line.dataBits)
      && o.line.stopBits == (if BaudOk(a, achieved) && WordLengthOk(a) && a.stopBits.Some? && StopBitsOk(a)
                             then StopBitsCode(a.stopBits.value).value else line.stopBits)
      && o.line.parity == (if BaudOk(a, achieved) && WordLengthOk(a) && StopBitsOk(a) && a.parity.Some? && ParityOk(a)
                           then ParityCode(a.parity.value).value else line.parity)
  {
  }

  /**
   * A saved configuration is the stored one with exactly the given options
   * replaced, flow control and threshold kept, and it agrees with the line
   * on every field that was given.
   */
  lemma SavedConfFollowsArgs(line: Line, conf: UartConfig, a: Args, achieved: int)
    requires Configure(line, conf, a, achieved).saved
    ensures var o := Configure(line, conf, a, achieved);
      o.conf.baudRate == (if a.baud.Some? then achieved else conf.baudRate)
      && o.conf.dataBits == (if a.wordLength.Some? then a.wordLength.value - 5 else conf.dataBits)
      && o.conf.stopBits == (if a.stopBits.Some? then StopBitsCode(a.stopBits.value).value else conf.stopBits)
      && o.conf.parity == (if a.parity.Some? then ParityCode(a.parity.value).value else conf.parity)
      && o.conf.flowCtrl == conf.flowCtrl && o.conf.rxFlowCtrlThresh == conf.rxFlowCtrlThresh
      && (a.baud.Some? ==> o.line.baud == o.conf.baudRate)
      && (a.wordLength.Some? ==> o.line.dataBits == o.conf.dataBits)
      && (a.stopBits.Some? ==> o.line.stopBits == o.conf.stopBits)
      && (a.parity.Some? ==> o.line.parity == o.conf.parity)
  {
  }

  /** The serial port the bridge drives. */
  class Uart {
    var line: Line

    constructor (initial: Line)
      ensures line == initial
    {
      line := initial;
    }
  }

  /**
   * `set_uart_cmd_cb`: `openErr` is what opening NVS reported,
   * `achieved` the rate the driver reports after the requested baud rate
   * is set, `writeErr` what saving the blob reported. The command always
   * returns ESP_OK; when NVS cannot be opened it changes nothing.
   */
  method SetUartCmd(uart: Uart, storage: Storage, a: Args, openErr: Err, achieved: int, writeErr: Err) returns (r: Err)
    modifies uart, storage
    ensures r == Ok && storage.posted == old(storage.posted)
    ensures openErr != Ok ==> uart.line == old(uart.line) && storage.nvs == old(storage.nvs)
    ensures openErr == Ok ==>
      var o := Configure(old(uart.line), StoredConf(old(storage.nvs)), a, achieved);
      uart.line == o.line
      && storage.nvs == if o.saved && writeErr == Ok
                        then old(storage.nvs).(blobs := old(storage.nvs).blobs[UART_CONF_KEY := UartBlob(o.conf)])
                        else old(storage.nvs)
  {
    r := Ok;
    if openErr != Ok {
      return;
    }
    var conf := StoredConf(storage.nvs);
    ghost var line0, conf0 := uart.line, conf;

    if a.baud.Some? {
      var baudOld := uart.line.baud;
      uart.line := uart.line.(baud := achieved);
      if BaudWithinTolerance(a.baud.value, achieved) {
        conf := conf.(baudRate := achieved);
      } else {
        uart.line := uart.line.(baud := baudOld);
        return;
      }
    }

    if a.wordLength.Some? {
      var code := WordLengthCode(a.wordLength.value);
      if code.None? {
        return;
      }
      uart.line := uart.line.(dataBits := code.value);
      conf := conf.(dataBits := code.value);
    }

    if a.stopBits.Some? {
      var code := StopBitsCode(a.stopBits.value);
      if code.None? {
        return;
      }
      uart.line := uart.line.(stopBits := code.value);
      conf := conf.(stopBits := code.value);
    }

    if a.parity.Some? {
      var code := ParityCode(a.parity.value);
      if code.None? {
        return;
      }
      uart.line := uart.line.(parity := code.value);
      conf := conf.(parity := code.value);
    }

    assert Configure(line0, conf0, a, achieved) == Outcome(uart.line, conf, true);
    var _ := storage.SetBlob(UART_CONF_KEY, UartBlob(conf), writeErr);
  }
}
