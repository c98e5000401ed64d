/**
 * Persistent settings in the NVS namespace "storage": the device name
 * (key "dev_name") and the serial line configuration (key "uart_conf").
 *
 * The NVS store is a value of `Nvs`, held by the `Storage` object together
 * with the application events posted so far. Opening the namespace and
 * writing to it are foreign calls: their results are parameters, and a
 * write changes the store exactly when it reports ESP_OK.
 */
module Config {
  import opened Esp

  const DEV_NAME_KEY := "dev_name"
  const UART_CONF_KEY := "uart_conf"

  /** The longest name `conf_set_dev_name` accepts, in characters. */
  const DEV_NAME_MAX := 20

  /** The buffer `conf_set_dev_name` reads the stored name into. */
  const OLD_NAME_BUF := 32

  /** "DEVICE", the name used when none is stored. */
  const DEFAULT_DEV_NAME: CString := [0x44, 0x45, 0x56, 0x49, 0x43, 0x45]

  const UART_DATA_8_BITS := 3
  const UART_PARITY_DISABLE := 0
  const UART_STOP_BITS_1 := 1
  const UART_HW_FLOWCTRL_DISABLE := 0

  /** The fields of `uart_config_t` this firmware reads or writes. */
  datatype UartConfig = UartConfig(baudRate: int, dataBits: int, parity: int, stopBits: int, flowCtrl: int, rxFlowCtrlThresh: int)

  /** 115200 baud, 8 data bits, no parity, 1 stop bit, no flow control, threshold 122. */
  const DefaultUartConfig := UartConfig(115200, UART_DATA_8_BITS, UART_PARITY_DISABLE, UART_STOP_BITS_1, UART_HW_FLOWCTRL_DISABLE, 122)

  /** A zero-initialised `uart_config_t`. */
  const ZeroUartConfig := UartConfig(0, 0, 0, 0, 0, 0)

  /** A stored blob: a `uart_config_t` of the right size, or a blob of any other size. */
  datatype Blob = UartBlob(conf: UartConfig) | OtherSize

  /** The namespace's string and blob entries. */
  datatype Nvs = Nvs(strs: map<string, CString>, blobs: map<string, Blob>)

  /**
   * `nvs_get_str` into a buffer of `capacity` bytes: a missing key is
   * ESP_ERR_NVS_NOT_FOUND, a value whose terminator does not fit is
   * ESP_ERR_NVS_INVALID_LENGTH.
   */
  function GetStr(nvs: Nvs, key: string, capacity: nat): (r: (Err, CString))
    ensures r.0 == Ok <==> key in nvs.strs && |nvs.strs[key]| < capacity
    ensures r.0 == Ok ==> r.1 == nvs.strs[key]
    ensures r.0 == NvsNotFound <==> key !in nvs.strs
    ensures r.0 == Ok || r.0 == NvsNotFound || r.0 == NvsInvalidLength
  {
    if key !in nvs.strs then (NvsNotFound, [])
    else if |nvs.strs[key]| + 1 > capacity then (NvsInvalidLength, [])
    else (Ok, nvs.strs[key])
  }

  /** The result of reading the device name: the error, the name left in the caller's buffer, the store afterwards. */
  datatype NameGet = NameGet(err: Err, name: Option<CString>, nvs: Nvs)

  /**
   * `conf_get_dev_name` with a buffer of `len` bytes, for a guard that
   * rejects buffers shorter than `minLen`; the firmware's guard is
   * `GetDevName`, the one a maximal name needs is `GetDevNameChecked`.
   */
  function GetDevNameWith(minLen: nat, nvs: Nvs, len: nat, openErr: Err, writeErr: Err): NameGet
  {
    if len < minLen then NameGet(InvalidArg, None, nvs)
    else if openErr != Ok then NameGet(openErr, None, nvs)
    else
      var (err, value) := GetStr(nvs, DEV_NAME_KEY, len);
      if err == NvsNotFound then
        NameGet(writeErr, Some(DEFAULT_DEV_NAME),
                if writeErr == Ok then nvs.(strs := nvs.strs[DEV_NAME_KEY := DEFAULT_DEV_NAME]) else nvs)
      else NameGet(err, if err == Ok then Some(value) else None, nvs)
  }

  /** `conf_get_dev_name` as written: buffers of fewer than 20 bytes are rejected. */
  function GetDevName(nvs: Nvs, len: nat, openErr: Err, writeErr: Err): NameGet
  {
    GetDevNameWith(DEV_NAME_MAX, nvs, len, openErr, writeErr)
  }

  /** `conf_get_dev_name` with the guard a 20-character name needs: room for the name and its terminator. */
  function GetDevNameChecked(nvs: Nvs, len: nat, openErr: Err, writeErr: Err): NameGet
  {
    GetDevNameWith(DEV_NAME_MAX + 1, nvs, len, openErr, writeErr)
  }

  /** The result of setting the device name: the error, the store afterwards, whether DEV_NAME_CHANGED was posted. */
  datatype NameSet = NameSet(err: Err, nvs: Nvs, posted: bool)

  /** `conf_set_dev_name`. */
  function SetDevName(nvs: Nvs, name: CString, openErr: Err, writeErr: Err): NameSet
  {
    if |name| > DEV_NAME_MAX then NameSet(InvalidSize, nvs, false)
    else if openErr != Ok then NameSet(openErr, nvs, false)
    else
      var (err, stored) := GetStr(nvs, DEV_NAME_KEY, OLD_NAME_BUF);
      if err == Ok && stored != name then
        NameSet(writeErr, if writeErr == Ok then nvs.(strs := nvs.strs[DEV_NAME_KEY := name]) else nvs, writeErr == Ok)
      else NameSet(err, nvs, false)
  }

  /** The result of reading the serial configuration: the error, the caller's struct afterwards (None: untouched), the store afterwards. */
  datatype UartGet = UartGet(err: Err, conf: Option<UartConfig>, nvs: Nvs)

  /** `conf_get_uart_param`. */
  function GetUartParam(nvs: Nvs, openErr: Err, writeErr: Err): UartGet
  {
    if openErr != Ok then UartGet(openErr, None, nvs)
    else if UART_CONF_KEY in nvs.blobs && nvs.blobs[UART_CONF_KEY].UartBlob? then
      UartGet(Ok, Some(nvs.blobs[UART_CONF_KEY].conf), nvs)
    else
      UartGet(writeErr, Some(DefaultUartConfig),
              if writeErr == Ok then nvs.(blobs := nvs.blobs[UART_CONF_KEY := UartBlob(DefaultUartConfig)]) else nvs)
  }

  /** A buffer shorter than 20 bytes is refused before the store is opened; a failed open is passed on; neither touches the store. */
  lemma GetDevNameGuards(nvs: Nvs, len: nat, openErr: Err, writeErr: Err)
    ensures len < DEV_NAME_MAX ==> GetDevName(nvs, len, openErr, writeErr) == NameGet(InvalidArg, None, nvs)
    ensures DEV_NAME_MAX <= len && openErr != Ok ==> GetDevName(nvs, len, openErr, writeErr) == NameGet(openErr, None, nvs)
  {
  }

  /** A missing name reads as "DEVICE" and is stored, so the next read finds it and writes nothing. */
  lemma DefaultNamePersisted(nvs: Nvs, len: nat, writeErr: Err)
    requires DEV_NAME_KEY !in nvs.strs && DEV_NAME_MAX <= len
    ensures var first := GetDevName(nvs, len, Ok, Ok);
      first == NameGet(Ok, Some(DEFAULT_DEV_NAME), nvs.(strs := nvs.strs[DEV_NAME_KEY := DEFAULT_DEV_NAME]))
      && GetDevName(first.nvs, len, Ok, writeErr) == NameGet(Ok, Some(DEFAULT_DEV_NAME), first.nvs)
  {
  }

  /**
   * A name is written only when one is stored and it differs; the event is
   * posted exactly when that write succeeded, and then the store holds the
   * new name. Without a stored name nothing is written and the lookup error
   * is returned.
   */
  lemma SetDevNameChanges(nvs: Nvs, name: CString, openErr: Err, writeErr: Err)
    ensures var r := SetDevName(nvs, name, openErr, writeErr);
      (r.posted <==> |name| <= DEV_NAME_MAX && openErr == Ok && DEV_NAME_KEY in nvs.strs
                     && |nvs.strs[DEV_NAME_KEY]| < OLD_NAME_BUF && nvs.strs[DEV_NAME_KEY] != name && writeErr == Ok)
      && (r.posted <==> r.nvs != nvs)
      && (r.posted ==> r.err == Ok && r.nvs.strs == nvs.strs[DEV_NAME_KEY := name] && r.nvs.blobs == nvs.blobs)
      && (|name| > DEV_NAME_MAX ==> r.err == InvalidSize)
      && (|name| <= DEV_NAME_MAX && openErr == Ok && DEV_NAME_KEY !in nvs.strs ==> r.err == NvsNotFound)
      && (|name| <= DEV_NAME_MAX && openErr == Ok && DEV_NAME_KEY in nvs.strs && nvs.strs[DEV_NAME_KEY] == name ==> r.err == Ok)
  {
    var r := SetDevName(nvs, name, openErr, writeErr);
    if r.posted {
      assert r.nvs.strs[DEV_NAME_KEY] == name != nvs.strs[DEV_NAME_KEY];
    }
  }

  /** The 20-character name that shows the short buffer: "AAAAAAAAAAAAAAAAAAAA". */
  function LongestName(): (s: CString)
    ensures |s| == DEV_NAME_MAX
  {
    seq(DEV_NAME_MAX, _ => 0x41)
  }

  /**
   * The firmware's read guard admits a 20-byte buffer, but a 20-character
   * name, which `conf_set_dev_name` accepts, needs 21 bytes: reading it
   * back through the smallest admitted buffer fails.
   */
  lemma LongestNameUnreadable()
    ensures var stored := Nvs(map[DEV_NAME_KEY := DEFAULT_DEV_NAME], map[]);
      var named := SetDevName(stored, LongestName(), Ok, Ok);
      named.posted && named.err == Ok
      && GetDevName(named.nvs, DEV_NAME_MAX, Ok, Ok).err == NvsInvalidLength
  {
    var stored := Nvs(map[DEV_NAME_KEY := DEFAULT_DEV_NAME], map[]);
    assert LongestName()[0] != DEFAULT_DEV_NAME[0];
    assert SetDevName(stored, LongestName(), Ok, Ok).nvs.strs[DEV_NAME_KEY] == LongestName();
  }

  /** With the corrected guard, every name `conf_set_dev_name` stores reads back unchanged through every admitted buffer. */
  lemma SetThenGetChecked(nvs: Nvs, name: CString, writeErr: Err, len: nat, writeErr': Err)
    requires SetDevName(nvs, name, Ok, writeErr).posted
    ensures GetDevNameChecked(SetDevName(nvs, name, Ok, writeErr).nvs, len, Ok, writeErr').name == if len <= DEV_NAME_MAX then None else Some(name)
    ensures DEV_NAME_MAX < len ==> GetDevNameChecked(SetDevName(nvs, name, Ok, writeErr).nvs, len, Ok, writeErr').err == Ok
  {
    SetDevNameChanges(nvs, name, Ok, writeErr);
  }

  /**
   * A stored configuration of the right size is returned as stored; a
   * missing or wrongly sized one is replaced by the default, which is
   * stored, so the next read returns it without writing.
   */
  lemma UartParamDefaults(nvs: Nvs, writeErr: Err, writeErr': Err)
    ensures UART_CONF_KEY in nvs.blobs && nvs.blobs[UART_CONF_KEY].UartBlob? ==>
      GetUartParam(nvs, Ok, writeErr) == UartGet(Ok, Some(nvs.blobs[UART_CONF_KEY].conf), nvs)
    ensures !(UART_CONF_KEY in nvs.blobs && nvs.blobs[UART_CONF_KEY].UartBlob?) ==>
      var first := GetUartParam(nvs, Ok, Ok);
      first == UartGet(Ok, Some(DefaultUartConfig), nvs.(blobs := nvs.blobs[UART_CONF_KEY := UartBlob(DefaultUartConfig)]))
      && GetUartParam(first.nvs, Ok, writeErr') == UartGet(Ok, Some(DefaultUartConfig), first.nvs)
  {
  }

  /** The NVS namespace, and the application events posted on a name change. */
  class Storage {
    var nvs: Nvs
    var posted: seq<AppEvent>

    constructor (initial: Nvs)
      ensures nvs == initial && posted == []
    {
      nvs := initial;
      posted := [];
    }

    /** `nvs_set_str`: stores the value when the write reports ESP_OK. */
    method SetStr(key: string, value: CString, writeErr: Err) returns (err: Err)
      modifies this
      ensures err == writeErr && posted == old(posted)
      ensures nvs == if writeErr == Ok then old(nvs).(strs := old(nvs).strs[key := value]) else old(nvs)
    {
      if writeErr == Ok {
        nvs := nvs.(strs := nvs.strs[key := value]);
      }
      err := writeErr;
    }

    /** `nvs_set_blob`: stores the blob when the write reports ESP_OK. */
    method SetBlob(key: string, value: Blob, writeErr: Err) returns (err: Err)
      modifies this
      ensures err == writeErr && posted == old(posted)
      ensures nvs == if writeErr == Ok then old(nvs).(blobs := old(nvs).blobs[key := value]) else old(nvs)
    {
      if writeErr == Ok {
        nvs := nvs.(blobs := nvs.blobs[key := value]);
      }
      err := writeErr;
    }

    /** `conf_get_dev_name` on the store, with the guard that admits only buffers a stored name fits (see `GetDevName` for the guard as written). */
    method ConfGetDevName(len: nat, openErr: Err, writeErr: Err) returns (err: Err, name: Option<CString>)
      modifies this
      ensures var r := GetDevNameChecked(old(nvs), len, openErr, writeErr);
        err == r.err && name == r.name && nvs == r.nvs && posted == old(posted)
    {
      if len < DEV_NAME_MAX + 1 {
        return InvalidArg, None;
      }
      if openErr != Ok {
        return openErr, None;
      }
      var (e, value) := GetStr(nvs, DEV_NAME_KEY, len);
      err := e;
      name := if e == Ok then Some(value) else None;
      if err == NvsNotFound {
        name := Some(DEFAULT_DEV_NAME);
        err := SetStr(DEV_NAME_KEY, DEFAULT_DEV_NAME, writeErr);
      }
    }

    /** `conf_set_dev_name` on the store. */
    method ConfSetDevName(name: CString, openErr: Err, writeErr: Err) returns (err: Err)
      modifies this
      ensures var r := SetDevName(old(nvs), name, openErr, writeErr);
        err == r.err && nvs == r.nvs && posted == old(posted) + if r.posted then [DevNameChanged] else []
    {
      if |name| > DEV_NAME_MAX {
        return InvalidSize;
      }
      if openErr != Ok {
        return openErr;
      }
      var (e, oldName) := GetStr(nvs, DEV_NAME_KEY, OLD_NAME_BUF);
      err := e;
      if err == Ok && oldName != name {
        err := SetStr(DEV_NAME_KEY, name, writeErr);
        if err == Ok {
          posted := posted + [DevNameChanged];
        }
      }
    }

    /** `conf_get_uart_param` on the store; `conf` is the caller's struct afterwards, None when it is left untouched. */
    method ConfGetUartParam(openErr: Err, writeErr: Err) returns (err: Err, conf: Option<UartConfig>)
      modifies this
      ensures var r := GetUartParam(old(nvs), openErr, writeErr);
        err == r.err && conf == r.conf && nvs == r.nvs && posted == old(posted)
    {
      if openErr != Ok {
        return openErr, None;
      }
      if UART_CONF_KEY in nvs.blobs && nvs.blobs[UART_CONF_KEY].UartBlob? {
        return Ok, Some(nvs.blobs[UART_CONF_KEY].conf);
      }
      conf := Some(DefaultUartConfig);
      err := SetBlob(UART_CONF_KEY, UartBlob(DefaultUartConfig), writeErr);
    }
  }
}
