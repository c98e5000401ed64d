/**
 * Station connection bookkeeping: the Wi-Fi event group, the bounded
 * reconnection counter, the connection record reported over BluFi, and the
 * setters for the station and soft-AP configurations.
 *
 * The result of every call into the Wi-Fi driver (`esp_wifi_connect`,
 * `esp_wifi_set_config`) is a parameter, and the event payloads the
 * handlers receive are arguments of the handler.
 */
module WifiManager {
  import opened Esp

  const STA_START_BIT: Bit := 0
  const CONNECTED_BIT: Bit := 1
  const CONNECTING_BIT: Bit := 2
  const GOT_IP_BIT: Bit := 3
  const PASSWORD_ERROR: Bit := 4

  const WIFI_CONNECTION_MAXIMUM_RETRY := 5
  const INVALID_REASON := 255
  const INVALID_RSSI := -128

  /** Sizes of the fields of `wifi_sta_config_t` / `wifi_ap_config_t` the setters write. */
  const SSID_SIZE := 32
  const PASSWORD_SIZE := 64
  const BSSID_SIZE := 6

  /** The largest soft-AP connection count and channel the setters accept. */
  const AP_MAX_CONN := 4
  const AP_MAX_CHANNEL := 13

  /**
   * `wifi_wait_event` once the wait returns with the group holding `bits`:
   * `(event & bits) == event`.
   */
  predicate WaitEvent(bits: set<Bit>, event: set<Bit>)
  {
    event * bits == event
  }

  /** The wait succeeds exactly when every bit asked for is set; so each one-bit macro tests its own bit. */
  lemma WaitEventAllBits(bits: set<Bit>, event: set<Bit>)
    ensures WaitEvent(bits, event) <==> forall b :: b in event ==> b in bits
    ensures forall b: Bit :: WaitEvent(bits, {b}) <==> b in bits
  {
    if WaitEvent(bits, event) {
      forall b | b in event ensures b in bits {
        assert b in event * bits;
      }
    }
  }

  /** The fields of `esp_blufi_extra_info_t` the firmware sets; every other field is zero. */
  datatype ConnInfo = ConnInfo(maxRetrySet: bool, maxRetry: int, rssiSet: bool, rssi: int,
                               endReasonSet: bool, endReason: int)

  const ZeroInfo := ConnInfo(false, 0, false, 0, false, 0)

  /**
   * `record_wifi_conn_info`: the record is cleared, then a connection
   * attempt in progress reports only the retry limit, and anything else
   * reports only the signal strength and the reason the connection ended.
   */
  function RecordInfo(connecting: bool, rssi: int, reason: Byte): (r: ConnInfo)
    ensures r.maxRetrySet <==> connecting
    ensures r.rssiSet <==> !connecting
    ensures r.endReasonSet == r.rssiSet
    ensures connecting ==> r == ZeroInfo.(maxRetrySet := true, maxRetry := WIFI_CONNECTION_MAXIMUM_RETRY)
    ensures !connecting ==> r == ZeroInfo.(rssiSet := true, rssi := rssi, endReasonSet := true, endReason := reason)
  {
    var info := ZeroInfo;
    if connecting then info.(maxRetrySet := true, maxRetry := WIFI_CONNECTION_MAXIMUM_RETRY)
    else info.(rssiSet := true, rssi := rssi, endReasonSet := true, endReason := reason)
  }

  /**
   * The test `wifi_is_connecting() && wifi_retry_count++ < 5` on the
   * `uint8_t` counter: whether a retry is granted, and the counter after it.
   */
  function Retry(count: Byte, connecting: bool): (r: (bool, Byte))
    ensures r.0 <==> connecting && count < WIFI_CONNECTION_MAXIMUM_RETRY
    ensures !connecting ==> r.1 == count
    ensures connecting && count < 255 ==> r.1 == count + 1
    ensures connecting && count == 255 ==> r.1 == 0
  {
    if connecting then (count < WIFI_CONNECTION_MAXIMUM_RETRY, (count + 1) % 256)
    else (false, count)
  }

  /**
   * What a disconnection does to the retry state: whether it retried, the
   * counter, and whether an attempt is still in progress. A retry is only
   * tried while not connected, and a refused retry ends the attempt.
   */
  datatype RetryState = RetryState(granted: bool, count: Byte, connecting: bool)

  function DisconnectStep(count: Byte, connecting: bool, connected: bool): (r: RetryState)
    ensures r.granted ==> !connected && connecting && r.connecting && r.count == count + 1
    ensures !r.granted && r.connecting ==> connected && r.count == count
    ensures !connecting ==> !r.connecting && !r.granted && r.count == count
  {
    if connected then RetryState(false, count, connecting)
    else
      var (ok, next) := Retry(count, connecting);
      RetryState(ok, next, connecting && ok)
  }

  /** Retries granted over `n` disconnections in a row with no connection in between. */
  function Granted(count: Byte, connecting: bool, n: nat): nat
    decreases n
  {
    if n == 0 then 0
    else
      var s := DisconnectStep(count, connecting, false);
      (if s.granted then 1 else 0) + Granted(s.count, s.connecting, n - 1)
  }

  function Min(a: int, b: int): int
  {
    if a <= b then a else b
  }

  /** Once no attempt is in progress, disconnections retry nothing. */
  lemma {:induction false} NoAttemptNoRetries(count: Byte, n: nat)
    ensures Granted(count, false, n) == 0
    decreases n
  {
    if n > 0 {
      NoAttemptNoRetries(count, n - 1);
    }
  }

  /**
   * After `wifi_connect` (counter 0, attempt in progress) a run of
   * disconnections gets exactly `min(n, 5)` retries: the counter cannot
   * wrap, because the refused retry ends the attempt.
   */
  lemma {:induction false} RetriesAfterConnect(count: Byte, n: nat)
    requires count <= WIFI_CONNECTION_MAXIMUM_RETRY
    ensures Granted(count, true, n) == Min(n, WIFI_CONNECTION_MAXIMUM_RETRY - count)
    decreases n
  {
    if n > 0 {
      var s := DisconnectStep(count, true, false);
      if count < WIFI_CONNECTION_MAXIMUM_RETRY {
        RetriesAfterConnect(count + 1, n - 1);
      } else {
        NoAttemptNoRetries(s.count, n - 1);
      }
    }
  }

  /** The ssid and password fields, adjacent in both `wifi_sta_config_t` and `wifi_ap_config_t`. */
  datatype Credentials = Credentials(ssid: seq<Byte>, password: seq<Byte>)

  predicate CredentialsOk(c: Credentials)
  {
    |c.ssid| == SSID_SIZE && |c.password| == PASSWORD_SIZE
  }

  /** `strncpy(dst, src, |src|)`: the bytes of `src` up to its first NUL, then NUL padding to `|src|` bytes. */
  function Strncpy(src: seq<Byte>): (r: seq<Byte>)
    ensures |r| == |src|
    ensures forall i :: 0 <= i < |src| ==> r[i] == if 0 in src[..i] then 0 else src[i]
  {
    if src == [] then []
    else
      var init := Strncpy(src[..|src| - 1]);
      var last := src[|src| - 1];
      assert forall i :: 0 <= i < |src| - 1 ==> src[..|src| - 1][..i] == src[..i];
      init + [if 0 in src[..|src| - 1] then 0 else last]
  }

  /** `dst` with its first `|bytes|` bytes replaced. */
  function Overwrite(dst: seq<Byte>, bytes: seq<Byte>): (r: seq<Byte>)
    requires |bytes| <= |dst|
    ensures |r| == |dst| && r[..|bytes|] == bytes && r[|bytes|..] == dst[|bytes|..]
  {
    bytes + dst[|bytes|..]
  }

  /**
   * The ssid setters as written: `strncpy` of `len` bytes, then `ssid[len] =
   * '\0'`. For a full 32-byte ssid that byte is the first byte of the
   * password field that follows it.
   */
  function WithSsid(c: Credentials, src: seq<Byte>): (r: Credentials)
    requires CredentialsOk(c) && |src| <= SSID_SIZE
    ensures CredentialsOk(r)
    ensures r.ssid[..|src|] == Strncpy(src)
    ensures |src| < SSID_SIZE ==> r.ssid[|src|] == 0 && r.ssid[|src| + 1..] == c.ssid[|src| + 1..] && r.password == c.password
    ensures |src| == SSID_SIZE ==> r.password == c.password[0 := 0]
  {
    var ssid := Overwrite(c.ssid, Strncpy(src));
    if |src| < SSID_SIZE then c.(ssid := ssid[|src| := 0])
    else c.(ssid := ssid, password := c.password[0 := 0])
  }

  /**
   * The ssid setters with the terminator written only when it fits: a full
   * 32-byte ssid is stored without one, as the driver allows.
   */
  function WithSsidChecked(c: Credentials, src: seq<Byte>): (r: Credentials)
    requires CredentialsOk(c) && |src| <= SSID_SIZE
    ensures CredentialsOk(r)
    ensures r.ssid[..|src|] == Strncpy(src)
    ensures |src| < SSID_SIZE ==> r.ssid[|src|] == 0 && r.ssid[|src| + 1..] == c.ssid[|src| + 1..]
    ensures r.password == c.password
  {
    var ssid := Overwrite(c.ssid, Strncpy(src));
    if |src| < SSID_SIZE then c.(ssid := ssid[|src| := 0]) else c.(ssid := ssid)
  }

  /** The password setters: `strncpy` of `len` bytes, then `password[len] = '\0'`. */
  function WithPassword(c: Credentials, src: seq<Byte>): (r: Credentials)
    requires CredentialsOk(c) && |src| < PASSWORD_SIZE
    ensures CredentialsOk(r) && r.ssid == c.ssid
    ensures r.password[..|src|] == Strncpy(src) && r.password[|src|] == 0
    ensures r.password[|src| + 1..] == c.password[|src| + 1..]
  {
    c.(password := Overwrite(c.password, Strncpy(src))[|src| := 0])
  }

  /** A C string field read back: the bytes before the first NUL, or the whole field. */
  function FieldString(field: seq<Byte>): (r: seq<Byte>)
    ensures r <= field && 0 !in r
    ensures |r| < |field| ==> field[|r|] == 0
  {
    if field == [] || field[0] == 0 then [] else [field[0]] + FieldString(field[1..])
  }

  /** Setting a full 32-byte ssid as written turns any stored password into the empty one. */
  lemma FullSsidErasesPassword(c: Credentials, src: seq<Byte>)
    requires CredentialsOk(c) && |src| == SSID_SIZE
    ensures FieldString(WithSsid(c, src).password) == []
  {
  }

  /** With the checked setter, a stored password survives setting any ssid, and an ssid without NUL reads back whole. */
  lemma {:induction false} CheckedSsidKeepsPassword(c: Credentials, src: seq<Byte>)
    requires CredentialsOk(c) && |src| <= SSID_SIZE && 0 !in src
    ensures WithSsidChecked(c, src).password == c.password
    ensures FieldString(WithSsidChecked(c, src).ssid) == src
  {
    var r := WithSsidChecked(c, src);
    StrncpyPlain(src);
    FieldStringPrefix(r.ssid, src);
  }

  /** `strncpy` of a source without NUL copies it unchanged. */
  lemma StrncpyPlain(src: seq<Byte>)
    requires 0 !in src
    ensures Strncpy(src) == src
  {
    forall i | 0 <= i < |src| ensures Strncpy(src)[i] == src[i] {
      assert 0 !in src[..i];
    }
  }

  /** A field holding `s` followed by a NUL, or exactly `s`, reads back as `s`. */
  lemma {:induction false} FieldStringPrefix(field: seq<Byte>, s: seq<Byte>)
    requires s <= field && 0 !in s
    requires |s| < |field| ==> field[|s|] == 0
    ensures FieldString(field) == s
    decreases |s|
  {
    if s != [] {
      FieldStringPrefix(field[1..], s[1..]);
    }
  }

  datatype StaConfig = StaConfig(cred: Credentials, bssid: seq<Byte>, bssidSet: bool)

  /** The fields of `wifi_ap_config_t` the setters write; `ssid_len` is the field right after the password. */
  datatype ApConfig = ApConfig(cred: Credentials, ssidLen: int, maxConnection: Byte, authmode: nat, channel: Byte)

  /**
   * `wifi_set_ap_passwd` as written: `strncpy` of `len` bytes, then
   * `password[len] = '\0'`. For a full 64-byte password that byte is
   * `ssid_len`, the field that follows the password.
   */
  function ApWithPassword(ap: ApConfig, src: seq<Byte>): (r: ApConfig)
    requires CredentialsOk(ap.cred) && |src| <= PASSWORD_SIZE
    ensures CredentialsOk(r.cred) && r.cred.ssid == ap.cred.ssid
    ensures r.cred.password[..|src|] == Strncpy(src)
    ensures |src| < PASSWORD_SIZE ==> r == ap.(cred := WithPassword(ap.cred, src))
    ensures |src| == PASSWORD_SIZE ==> r == ap.(cred := r.cred, ssidLen := 0)
  {
    if |src| < PASSWORD_SIZE then ap.(cred := WithPassword(ap.cred, src))
    else ap.(cred := ap.cred.(password := Strncpy(src)), ssidLen := 0)
  }

  /**
   * The AP password setter with the terminator written only when it fits:
   * a full 64-byte password is stored without one, as the driver allows
   * for a 64-hex-digit key.
   */
  function ApWithPasswordChecked(ap: ApConfig, src: seq<Byte>): (r: ApConfig)
    requires CredentialsOk(ap.cred) && |src| <= PASSWORD_SIZE
    ensures CredentialsOk(r.cred) && r.cred.ssid == ap.cred.ssid
    ensures r.cred.password[..|src|] == Strncpy(src)
    ensures |src| < PASSWORD_SIZE ==> r.cred == WithPassword(ap.cred, src)
    ensures r == ap.(cred := r.cred)
  {
    if |src| < PASSWORD_SIZE then ap.(cred := WithPassword(ap.cred, src))
    else ap.(cred := ap.cred.(password := Strncpy(src)))
  }

  /**
   * Setting an AP ssid and then a full 64-byte password as written leaves
   * `ssid_len` at 0, whatever the ssid's length.
   */
  lemma FullApPasswordClearsSsidLen(ap: ApConfig, ssid: seq<Byte>, passwd: seq<Byte>)
    requires CredentialsOk(ap.cred) && |ssid| <= SSID_SIZE && |passwd| == PASSWORD_SIZE
    ensures var named := ap.(cred := WithSsid(ap.cred, ssid), ssidLen := |ssid|);
      ApWithPassword(named, passwd).ssidLen == 0
  {
  }

  /**
   * With the checked setter, an AP ssid and then any password without NUL,
   * a full 64-byte one included, leave `ssid_len` at the ssid's length and
   * the password reading back whole.
   */
  lemma {:induction false} CheckedApPasswordKeepsSsidLen(ap: ApConfig, ssid: seq<Byte>, passwd: seq<Byte>)
    requires CredentialsOk(ap.cred) && |ssid| <= SSID_SIZE && |passwd| <= PASSWORD_SIZE && 0 !in passwd
    ensures var named := ap.(cred := WithSsid(ap.cred, ssid), ssidLen := |ssid|);
      var r := ApWithPasswordChecked(named, passwd);
      r.ssidLen == |ssid| && FieldString(r.cred.password) == passwd
  {
    var named := ap.(cred := WithSsid(ap.cred, ssid), ssidLen := |ssid|);
    var r := ApWithPasswordChecked(named, passwd);
    StrncpyPlain(passwd);
    FieldStringPrefix(r.cred.password, passwd);
  }

  datatype IpInfo = IpInfo(ip: int, netmask: int, gw: int)

  /** The Wi-Fi events the handlers act on; every other event id leaves the state alone. */
  datatype WifiEvent =
    | StaStart
    | StaStop
    | StaConnected(bssid: seq<Byte>, ssid: seq<Byte>)
    | StaDisconnected(rssi: int, reason: Byte)
    | GotIp(info: IpInfo)
    | LostIp
    | OtherEvent

  function Zeros(n: nat): (r: seq<Byte>)
    ensures |r| == n && forall i :: 0 <= i < n ==> r[i] == 0
  {
    seq(n, _ => 0)
  }

  const ZeroCredentials := Credentials(Zeros(SSID_SIZE), Zeros(PASSWORD_SIZE))

  /** The module's static state. */
  class Wifi {
    var bits: set<Bit>
    var retryCount: Byte
    var connInfo: ConnInfo
    var staBssid: seq<Byte>
    var staSsid: seq<Byte>
    var staSsidLen: int
    var ipInfo: IpInfo
    var sta: StaConfig
    var ap: ApConfig
    /** Retries granted since the last `wifi_connect`. */
    ghost var granted: nat

    /**
     * Field sizes, and the retry bound: a retry is granted at most five
     * times per `wifi_connect`, and once the counter has passed the limit
     * no attempt is in progress, so it never climbs further.
     */
    ghost predicate Valid()
      reads this
    {
      |staBssid| == BSSID_SIZE && |staSsid| == SSID_SIZE && 0 <= staSsidLen <= SSID_SIZE
      && CredentialsOk(sta.cred) && |sta.bssid| == BSSID_SIZE && CredentialsOk(ap.cred)
      && ((retryCount <= WIFI_CONNECTION_MAXIMUM_RETRY && granted == retryCount)
          || (retryCount == WIFI_CONNECTION_MAXIMUM_RETRY + 1 && granted == WIFI_CONNECTION_MAXIMUM_RETRY
              && CONNECTING_BIT !in bits))
    }

    /** Static zero-initialisation and a fresh event group. */
    constructor ()
      ensures Valid() && bits == {} && retryCount == 0 && granted == 0 && connInfo == ZeroInfo
    {
      bits := {};
      retryCount := 0;
      connInfo := ZeroInfo;
      staBssid := Zeros(BSSID_SIZE);
      staSsid := Zeros(SSID_SIZE);
      staSsidLen := 0;
      ipInfo := IpInfo(0, 0, 0);
      sta := StaConfig(ZeroCredentials, Zeros(BSSID_SIZE), false);
      ap := ApConfig(ZeroCredentials, 0, 0, 0, 0);
      granted := 0;
    }

    /** `wifi_connect`; `connectErr` is what `esp_wifi_connect` returned. */
    method Connect(connectErr: Err)
      requires Valid()
      modifies this
      ensures Valid()
      ensures retryCount == 0 && granted == 0
      ensures bits == old(bits) + (if connectErr == Ok then {CONNECTING_BIT} else {})
      ensures connInfo == RecordInfo(CONNECTING_BIT in bits, INVALID_RSSI, INVALID_REASON)
      ensures staBssid == old(staBssid) && staSsid == old(staSsid) && staSsidLen == old(staSsidLen)
      ensures ipInfo == old(ipInfo) && sta == old(sta) && ap == old(ap)
    {
      retryCount := 0;
      granted := 0;
      if connectErr == Ok {
        bits := bits + {CONNECTING_BIT};
      }
      connInfo := RecordInfo(WaitEvent(bits, {CONNECTING_BIT}), INVALID_RSSI, INVALID_REASON);
    }

    /**
     * `wifi_reconnect`: granted while an attempt is in progress and fewer
     * than five retries were made; the counter moves whenever an attempt is
     * in progress. The CONNECTING bit it may set is already set.
     */
    method Reconnect(connectErr: Err) returns (r: bool)
      modifies this
      ensures (r, retryCount) == Retry(old(retryCount), CONNECTING_BIT in old(bits))
      ensures granted == old(granted) + (if r then 1 else 0)
      ensures bits == old(bits)
      ensures connInfo == if r then RecordInfo(true, INVALID_RSSI, INVALID_REASON) else old(connInfo)
      ensures staBssid == old(staBssid) && staSsid == old(staSsid) && staSsidLen == old(staSsidLen)
      ensures ipInfo == old(ipInfo) && sta == old(sta) && ap == old(ap)
    {
      var connecting := WaitEvent(bits, {CONNECTING_BIT});
      var before := retryCount;
      if connecting {
        retryCount := (retryCount + 1) % 256;
      }
      if connecting && before < WIFI_CONNECTION_MAXIMUM_RETRY {
        if connectErr == Ok {
          bits := bits + {CONNECTING_BIT};
        }
        connInfo := RecordInfo(WaitEvent(bits, {CONNECTING_BIT}), INVALID_RSSI, INVALID_REASON);
        granted := granted + 1;
        r := true;
      } else {
        r := false;
      }
    }

    /**
     * `wifi_event_handler` and `ip_event_handler`; `connectErr` is what
     * `esp_wifi_connect` returns if a disconnection retries.
     */
    method Handle(e: WifiEvent, connectErr: Err)
      requires Valid()
      requires e.StaConnected? ==> |e.bssid| == BSSID_SIZE && |e.ssid| <= SSID_SIZE
      modifies this
      ensures Valid()
      ensures sta == old(sta) && ap == old(ap)
      ensures e.StaStart? ==> bits == old(bits) + {STA_START_BIT}
      ensures e.StaStop? ==> bits == old(bits) - {STA_START_BIT}
      ensures e.StaConnected? ==>
        bits == old(bits) + {CONNECTED_BIT} - {PASSWORD_ERROR, CONNECTING_BIT}
        && staBssid == e.bssid && staSsidLen == |e.ssid| && staSsid[..staSsidLen] == e.ssid
      ensures e.StaDisconnected? ==>
        var s := DisconnectStep(old(retryCount), CONNECTING_BIT in old(bits), CONNECTED_BIT in old(bits));
        retryCount == s.count
        && bits == (if s.connecting then old(bits) else old(bits) - {CONNECTING_BIT}) - {CONNECTED_BIT, GOT_IP_BIT}
        && connInfo == (if s.granted then RecordInfo(true, INVALID_RSSI, INVALID_REASON)
                        else if CONNECTED_BIT in old(bits) then old(connInfo)
                        else RecordInfo(CONNECTING_BIT in old(bits), e.rssi, e.reason))
        && staBssid == Zeros(BSSID_SIZE) && staSsid == Zeros(SSID_SIZE) && staSsidLen == 0
      ensures e.GotIp? ==> bits == old(bits) + {CONNECTED_BIT, GOT_IP_BIT} && ipInfo == e.info
      ensures e.LostIp? ==> bits == old(bits) && ipInfo == IpInfo(0, 0, 0)
      ensures !e.StaDisconnected? ==> retryCount == old(retryCount) && connInfo == old(connInfo)
      ensures !e.StaConnected? && !e.StaDisconnected? ==>
        staBssid == old(staBssid) && staSsid == old(staSsid) && staSsidLen == old(staSsidLen)
      ensures !e.GotIp? && !e.LostIp? ==> ipInfo == old(ipInfo)
      ensures e.OtherEvent? ==> bits == old(bits)
    {
      match e
      case StaStart =>
        bits := bits + {STA_START_BIT};
      case StaStop =>
        bits := bits - {STA_START_BIT};
      case StaConnected(bssid, ssid) =>
        staBssid := bssid;
        staSsid := Overwrite(staSsid, ssid);
        staSsidLen := |ssid|;
        bits := bits + {CONNECTED_BIT};
        bits := bits - {PASSWORD_ERROR, CONNECTING_BIT};
      case StaDisconnected(rssi, reason) =>
        Disconnected(rssi, reason, connectErr);
      case GotIp(info) =>
        ipInfo := info;
        bits := bits + {CONNECTED_BIT, GOT_IP_BIT};
      case LostIp =>
        ipInfo := IpInfo(0, 0, 0);
      case OtherEvent =>
    }

    /**
     * The STA_DISCONNECTED case: while not connected, a retry is tried, and
     * a refused one records the disconnection and ends the attempt; the
     * connection's ssid and BSSID are cleared either way.
     */
    method Disconnected(rssi: int, reason: Byte, connectErr: Err)
      requires Valid()
      modifies this
      ensures Valid()
      ensures sta == old(sta) && ap == old(ap) && ipInfo == old(ipInfo)
      ensures var s := DisconnectStep(old(retryCount), CONNECTING_BIT in old(bits), CONNECTED_BIT in old(bits));
        retryCount == s.count
        && bits == (if s.connecting then old(bits) else old(bits) - {CONNECTING_BIT}) - {CONNECTED_BIT, GOT_IP_BIT}
        && connInfo == (if s.granted then RecordInfo(true, INVALID_RSSI, INVALID_REASON)
                        else if CONNECTED_BIT in old(bits) then old(connInfo)
                        else RecordInfo(CONNECTING_BIT in old(bits), rssi, reason))
        && staBssid == Zeros(BSSID_SIZE) && staSsid == Zeros(SSID_SIZE) && staSsidLen == 0
    {
      if !WaitEvent(bits, {CONNECTED_BIT}) {
        var retried := Reconnect(connectErr);
        if !retried {
          connInfo := RecordInfo(WaitEvent(bits, {CONNECTING_BIT}), rssi, reason);
          bits := bits - {CONNECTING_BIT};
        }
      }
      staSsid := Zeros(SSID_SIZE);
      staBssid := Zeros(BSSID_SIZE);
      staSsidLen := 0;
      bits := bits - {CONNECTED_BIT, GOT_IP_BIT};
    }

    /** `wifi_get_ssid_bssid`: the BSSID and the ssid bytes of the current connection. */
    method GetSsidBssid() returns (bssid: seq<Byte>, ssid: seq<Byte>)
      requires Valid()
      ensures bssid == staBssid && ssid == staSsid[..staSsidLen]
    {
      bssid := staBssid;
      ssid := staSsid[..staSsidLen];
    }

    /** `wifi_get_ip_info`. */
    method GetIpInfo() returns (ip: IpInfo)
      ensures ip == ipInfo
    {
      ip := ipInfo;
    }

    /** `wifi_set_sta_bssid`; every setter returns what `esp_wifi_set_config` returned (`setErr`). */
    method SetStaBssid(bssid: seq<Byte>, setErr: Err) returns (r: Err)
      requires Valid() && |bssid| == BSSID_SIZE
      modifies this`sta
      ensures Valid() && r == setErr
      ensures sta == old(sta).(bssid := bssid, bssidSet := true)
    {
      sta := sta.(bssid := bssid, bssidSet := true);
      r := setErr;
    }

    /** `wifi_set_sta_ssid` as written: a full 32-byte ssid zeroes the first password byte. */
    method SetStaSsid(ssid: seq<Byte>, setErr: Err) returns (r: Err)
      requires Valid() && |ssid| <= SSID_SIZE
      modifies this`sta
      ensures Valid() && r == setErr
      ensures sta == old(sta).(cred := WithSsid(old(sta).cred, ssid))
      ensures |ssid| < SSID_SIZE ==> sta.cred.password == old(sta.cred.password)
      ensures |ssid| == SSID_SIZE ==> sta.cred.password == old(sta.cred.password)[0 := 0]
    {
      sta := sta.(cred := WithSsid(sta.cred, ssid));
      r := setErr;
    }

    /** `wifi_set_sta_passwd`. */
    method SetStaPasswd(passwd: seq<Byte>, setErr: Err) returns (r: Err)
      requires Valid() && |passwd| < PASSWORD_SIZE
      modifies this`sta
      ensures Valid() && r == setErr
      ensures sta == old(sta).(cred := WithPassword(old(sta).cred, passwd))
    {
      sta := sta.(cred := WithPassword(sta.cred, passwd));
      r := setErr;
    }

    /** `wifi_set_ap_ssid` as written: it also records the length, and a full 32-byte ssid zeroes the first password byte. */
    method SetApSsid(ssid: seq<Byte>, setErr: Err) returns (r: Err)
      requires Valid() && |ssid| <= SSID_SIZE
      modifies this`ap
      ensures Valid() && r == setErr
      ensures ap == old(ap).(cred := WithSsid(old(ap).cred, ssid), ssidLen := |ssid|)
      ensures |ssid| < SSID_SIZE ==> ap.cred.password == old(ap.cred.password)
      ensures |ssid| == SSID_SIZE ==> ap.cred.password == old(ap.cred.password)[0 := 0]
    {
      ap := ap.(cred := WithSsid(ap.cred, ssid), ssidLen := |ssid|);
      r := setErr;
    }

    /** `wifi_set_ap_passwd` as written: a full 64-byte password's terminator lands on `ssid_len`. */
    method SetApPasswd(passwd: seq<Byte>, setErr: Err) returns (r: Err)
      requires Valid() && |passwd| <= PASSWORD_SIZE
      modifies this`ap
      ensures Valid() && r == setErr
      ensures ap == ApWithPassword(old(ap), passwd)
      ensures ap.cred.password[..|passwd|] == Strncpy(passwd)
      ensures |passwd| < PASSWORD_SIZE ==> ap == old(ap).(cred := WithPassword(old(ap).cred, passwd))
      ensures |passwd| == PASSWORD_SIZE ==> ap.ssidLen == 0
    {
      ap := ApWithPassword(ap, passwd);
      r := setErr;
    }

    /** `wifi_set_ap_max_conn`: more than four is refused; the count is stored as a `uint8_t`. */
    method SetApMaxConn(n: int, setErr: Err) returns (r: Err)
      requires Valid()
      modifies this`ap
      ensures Valid()
      ensures n > AP_MAX_CONN ==> r == InvalidArg && ap == old(ap)
      ensures n <= AP_MAX_CONN ==> r == setErr && ap == old(ap).(maxConnection := n % 256)
    {
      if n > AP_MAX_CONN {
        return InvalidArg;
      }
      ap := ap.(maxConnection := n % 256);
      r := setErr;
    }

    /**
     * `wifi_set_ap_auth`: a mode at or past `authMax`, the SDK's
     * `WIFI_AUTH_MAX`, is refused. Its value depends on the ESP-IDF release
     * the firmware is built with, so it is a parameter.
     */
    method SetApAuth(mode: nat, authMax: nat, setErr: Err) returns (r: Err)
      requires Valid()
      modifies this`ap
      ensures Valid()
      ensures mode >= authMax ==> r == InvalidArg && ap == old(ap)
      ensures mode < authMax ==> r == setErr && ap == old(ap).(authmode := mode)
    {
      if mode >= authMax {
        return InvalidArg;
      }
      ap := ap.(authmode := mode);
      r := setErr;
    }

    /** `wifi_set_ap_channel`: a channel above 13 is refused. */
    method SetApChannel(channel: Byte, setErr: Err) returns (r: Err)
      requires Valid()
      modifies this`ap
      ensures Valid()
      ensures channel > AP_MAX_CHANNEL ==> r == InvalidArg && ap == old(ap)
      ensures channel <= AP_MAX_CHANNEL ==> r == setErr && ap == old(ap).(channel := channel)
    {
      if channel > AP_MAX_CHANNEL {
        return InvalidArg;
      }
      ap := ap.(channel := channel);
      r := setErr;
    }
  }
}
