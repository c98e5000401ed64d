/**
 * SmartConfig (ESP-Touch) provisioning: a start call arms a countdown of
 * half-second ticks, a task counts it down watching its own event group for
 * "acknowledged" and "cancel" requests and the station's password-error
 * flag, and the outcome is left as one bit for `smart_config_wait` to
 * decode.
 *
 * The event group's handle, task creation and the SmartConfig driver are
 * outside the model; what they report is passed in.
 */
module SmartConfig {
  import opened Esp
  import WifiManager

  /** Bits set from outside the task (ESPTOUCH_IN_FLAG_MASK, 0x00ff0000, is bits 16 to 23). */
  const ESPTOUCH_DONE_BIT: Bit := 16
  const ESPTOUCH_CANCEL0_BIT: Bit := 17

  /** Bits the task sets for the waiter (ESPTOUCH_OUT_FLAG_MASK, 0x0000ffff, is bits 0 to 15). */
  const ESPTOUCH_CANCEL_BIT: Bit := 0
  const ESPTOUCH_SUCCESS_BIT: Bit := 1
  const ESPTOUCH_TIMEOUT_BIT: Bit := 2
  const ESPTOUCH_PWD_ERR_BIT: Bit := 3

  /** The bits the two setters outside the task can set. */
  const InFlags: set<Bit> := {ESPTOUCH_DONE_BIT, ESPTOUCH_CANCEL0_BIT}

  /** The four outcome bits. */
  const Outcomes: set<Bit> := {ESPTOUCH_CANCEL_BIT, ESPTOUCH_SUCCESS_BIT, ESPTOUCH_TIMEOUT_BIT, ESPTOUCH_PWD_ERR_BIT}

  /** The group after a wait on the in-flags with clear-on-exit: bits 16 to 23 cleared. */
  function ClearIn(bits: set<Bit>): (r: set<Bit>)
    ensures forall b :: b in r <==> b in bits && b < 16
  {
    set b | b in bits && b < 16
  }

  /** The group after a wait on the out-flags with clear-on-exit: bits 0 to 15 cleared. */
  function ClearOut(bits: set<Bit>): (r: set<Bit>)
    ensures forall b :: b in r <==> b in bits && 16 <= b
  {
    set b | b in bits && 16 <= b
  }

  /**
   * The countdown loop of `smart_config_task`, from `t` remaining ticks at
   * iteration `k`: `arrive[j]` holds the bits set from outside while the
   * j-th wait blocks, `pwd[j]` what the password-error test reports after
   * it. Returns the remaining count and the group when the loop ends.
   */
  function Countdown(t: int, g: set<Bit>, arrive: seq<set<Bit>>, pwd: seq<bool>, k: nat): (r: (int, set<Bit>))
    requires t > 0 ==> k + t <= |arrive| && k + t <= |pwd|
    ensures t <= 0 ==> r == (t, g)
    ensures t > 0 ==> 0 <= r.0 <= t
    decreases if t > 0 then t else 0
  {
    if t <= 0 then (t, g)
    else
      var ux := g + arrive[k];
      var g' := ClearIn(ux);
      if ESPTOUCH_DONE_BIT in ux then (t, g' + {ESPTOUCH_SUCCESS_BIT})
      else if ESPTOUCH_CANCEL0_BIT in ux then (t, g' + {ESPTOUCH_CANCEL_BIT})
      else if pwd[k] then (t, g' + {ESPTOUCH_PWD_ERR_BIT})
      else Countdown(t - 1, g', arrive, pwd, k + 1)
  }

  /** The group once the task is over: TIMEOUT is added when the count ran down to exactly 0. */
  function Finished(r: (int, set<Bit>)): set<Bit>
  {
    if r.0 == 0 then r.1 + {ESPTOUCH_TIMEOUT_BIT} else r.1
  }

  /** Whether an iteration ends the loop early. */
  predicate Hit(arrive: set<Bit>, pwd: bool)
  {
    ESPTOUCH_DONE_BIT in arrive || ESPTOUCH_CANCEL0_BIT in arrive || pwd
  }

  /**
   * `smart_config_wait`'s decoding of the bits it woke up with: SUCCESS,
   * then TIMEOUT, then PWD_ERR, then CANCEL; with none of them it reports a
   * timeout.
   */
  function Decode(ux: set<Bit>): (r: Err)
    ensures r == Ok <==> ESPTOUCH_SUCCESS_BIT in ux
    ensures r == WifiPassword <==> ESPTOUCH_PWD_ERR_BIT in ux && ESPTOUCH_SUCCESS_BIT !in ux && ESPTOUCH_TIMEOUT_BIT !in ux
    ensures r == NotFinished <==>
      ESPTOUCH_CANCEL_BIT in ux && ESPTOUCH_SUCCESS_BIT !in ux && ESPTOUCH_TIMEOUT_BIT !in ux && ESPTOUCH_PWD_ERR_BIT !in ux
    ensures r == Timeout <==>
      ESPTOUCH_SUCCESS_BIT !in ux && (ESPTOUCH_TIMEOUT_BIT in ux || (ESPTOUCH_PWD_ERR_BIT !in ux && ESPTOUCH_CANCEL_BIT !in ux))
    ensures r in {Ok, Timeout, WifiPassword, NotFinished}
  {
    if ESPTOUCH_SUCCESS_BIT in ux then Ok
    else if ESPTOUCH_TIMEOUT_BIT in ux then Timeout
    else if ESPTOUCH_PWD_ERR_BIT in ux then WifiPassword
    else if ESPTOUCH_CANCEL_BIT in ux then NotFinished
    else Timeout
  }

  /**
   * What provisioning means for its caller, iteration by iteration: the
   * first iteration that sees the acknowledgement succeeds, one that sees a
   * cancel request is not finished, a password error fails, and running out
   * of ticks times out.
   */
  function Verdict(t: int, arrive: seq<set<Bit>>, pwd: seq<bool>, k: nat): (v: Err)
    requires t > 0 ==> k + t <= |arrive| && k + t <= |pwd|
    ensures v in {Ok, Timeout, WifiPassword, NotFinished}
    decreases if t > 0 then t else 0
  {
    if t <= 0 then Timeout
    else if ESPTOUCH_DONE_BIT in arrive[k] then Ok
    else if ESPTOUCH_CANCEL0_BIT in arrive[k] then NotFinished
    else if pwd[k] then WifiPassword
    else Verdict(t - 1, arrive, pwd, k + 1)
  }

  /** The bit the task leaves for each verdict. */
  function OutcomeBit(v: Err): (b: Bit)
    ensures b in Outcomes
  {
    match v
    case Ok => ESPTOUCH_SUCCESS_BIT
    case NotFinished => ESPTOUCH_CANCEL_BIT
    case WifiPassword => ESPTOUCH_PWD_ERR_BIT
    case _ => ESPTOUCH_TIMEOUT_BIT
  }

  /** A group holding only a verdict's bit decodes back to that verdict, and holds TIMEOUT exactly for a timeout. */
  lemma OutcomeDecodes(v: Err)
    requires v in {Ok, Timeout, WifiPassword, NotFinished}
    ensures Decode({OutcomeBit(v)}) == v
    ensures ESPTOUCH_TIMEOUT_BIT in {OutcomeBit(v)} <==> v == Timeout
    ensures |{OutcomeBit(v)}| == 1 && {OutcomeBit(v)} <= Outcomes
  {
  }

  /**
   * Run from a clear group, with only the two in-flags set from outside,
   * the task leaves exactly the bit of the verdict.
   */
  lemma {:induction false} CountdownFromClear(t: int, arrive: seq<set<Bit>>, pwd: seq<bool>, k: nat)
    requires t > 0 ==> k + t <= |arrive| && k + t <= |pwd|
    requires forall j :: 0 <= j < |arrive| ==> arrive[j] <= InFlags
    ensures t >= 0 ==> Finished(Countdown(t, {}, arrive, pwd, k)) == {OutcomeBit(Verdict(t, arrive, pwd, k))}
    ensures t < 0 ==> Finished(Countdown(t, {}, arrive, pwd, k)) == {}
    decreases if t > 0 then t else 0
  {
    if t > 0 {
      assert ClearIn({} + arrive[k]) == {};
      if !Hit(arrive[k], pwd[k]) {
        CountdownFromClear(t - 1, arrive, pwd, k + 1);
      }
    }
  }

  /** The verdict is a timeout exactly when no iteration ends the loop early. */
  lemma {:induction false} TimeoutIffNoHit(t: int, arrive: seq<set<Bit>>, pwd: seq<bool>, k: nat)
    requires t > 0 ==> k + t <= |arrive| && k + t <= |pwd|
    ensures Verdict(t, arrive, pwd, k) == Timeout <==> forall j :: k <= j < k + t ==> !Hit(arrive[j], pwd[j])
    decreases if t > 0 then t else 0
  {
    if t > 0 {
      TimeoutIffNoHit(t - 1, arrive, pwd, k + 1);
      if Verdict(t, arrive, pwd, k) == Timeout {
        forall j | k <= j < k + t ensures !Hit(arrive[j], pwd[j]) {
          if j > k {
            assert k + 1 <= j < k + 1 + (t - 1);
          }
        }
      }
    }
  }

  /**
   * A run of the task from a clear group, with only the two in-flags set
   * from outside: exactly one outcome bit is left (none when the count
   * started negative), TIMEOUT exactly when the count started at 0 or more
   * and no iteration ended the loop early, and `smart_config_wait` decodes
   * it to the verdict.
   */
  lemma TaskOutcome(t: int, arrive: seq<set<Bit>>, pwd: seq<bool>, k: nat)
    requires t > 0 ==> k + t <= |arrive| && k + t <= |pwd|
    requires forall j :: 0 <= j < |arrive| ==> arrive[j] <= InFlags
    ensures var f := Finished(Countdown(t, {}, arrive, pwd, k));
      (t >= 0 ==> |f| == 1 && f <= Outcomes)
      && (t < 0 ==> f == {})
      && (ESPTOUCH_TIMEOUT_BIT in f <==> t >= 0 && forall j :: k <= j < k + t ==> !Hit(arrive[j], pwd[j]))
      && Decode(f) == Verdict(t, arrive, pwd, k)
  {
    CountdownFromClear(t, arrive, pwd, k);
    TimeoutIffNoHit(t, arrive, pwd, k);
    if t >= 0 {
      OutcomeDecodes(Verdict(t, arrive, pwd, k));
    }
  }

  /** `smart_config_get_timeout_time`: the remaining ticks halved, as C's `/` truncates. */
  function Half(t: int): (r: int)
    ensures t >= 0 ==> 0 <= 2 * r <= t < 2 * r + 2
    ensures t < 0 ==> 2 * r - 2 < t <= 2 * r <= 0
  {
    if t >= 0 then t / 2 else -((-t) / 2)
  }

  /** Right after a start the remaining time reads back as the timeout given, whatever its sign. */
  lemma HalfOfDouble(n: int)
    ensures Half(2 * n) == n
  {
  }

  /** The module's static state. */
  class Provisioner {
    /** Whether `smart_config_event` has been created. */
    var created: bool
    var bits: set<Bit>
    var timeoutTime: int

    constructor ()
      ensures !created && bits == {} && timeoutTime == 0
    {
      created := false;
      bits := {};
      timeoutTime := 0;
    }

    /**
     * `smart_config_start`: `wifiBits` is the station's event group,
     * `createOk` whether creating the group succeeds and `taskOk` whether
     * creating the task does.
     */
    method Start(wifiBits: set<Bit>, timeout: int, createOk: bool, taskOk: bool) returns (r: Err)
      modifies this
      ensures WifiManager.STA_START_BIT !in wifiBits ==>
        r == WifiNotInit && created == old(created) && bits == old(bits) && timeoutTime == old(timeoutTime)
      ensures WifiManager.STA_START_BIT in wifiBits && !old(created) && !createOk ==>
        r == Fail && created == old(created) && bits == old(bits) && timeoutTime == old(timeoutTime)
      ensures WifiManager.STA_START_BIT in wifiBits && (old(created) || createOk) ==>
        created && bits == {} && timeoutTime == 2 * timeout && r == (if taskOk then Ok else Fail)
    {
      if !WifiManager.WaitEvent(wifiBits, {WifiManager.STA_START_BIT}) {
        return WifiNotInit;
      }
      if !created {
        if !createOk {
          return Fail;
        }
        created := true;
      }
      bits := ClearOut(ClearIn(bits));
      timeoutTime := timeout * 2;
      if !taskOk {
        return Fail;
      }
      r := Ok;
    }

    /** `smart_config_task`'s countdown loop and the TIMEOUT bit after it. */
    method Task(arrive: seq<set<Bit>>, pwd: seq<bool>)
      requires timeoutTime > 0 ==> timeoutTime <= |arrive| && timeoutTime <= |pwd|
      modifies this`bits, this`timeoutTime
      ensures var r := Countdown(old(timeoutTime), old(bits), arrive, pwd, 0);
        timeoutTime == r.0 && bits == Finished(r)
    {
      ghost var result := Countdown(timeoutTime, bits, arrive, pwd, 0);
      var k := 0;
      while timeoutTime > 0
        invariant timeoutTime > 0 ==> k + timeoutTime <= |arrive| && k + timeoutTime <= |pwd|
        invariant Countdown(timeoutTime, bits, arrive, pwd, k) == result
        decreases timeoutTime
      {
        var ux := bits + arrive[k];
        bits := ClearIn(ux);
        if ESPTOUCH_DONE_BIT in ux {
          bits := bits + {ESPTOUCH_SUCCESS_BIT};
          break;
        }
        if ESPTOUCH_CANCEL0_BIT in ux {
          bits := bits + {ESPTOUCH_CANCEL_BIT};
          break;
        }
        if pwd[k] {
          bits := bits + {ESPTOUCH_PWD_ERR_BIT};
          break;
        }
        timeoutTime := timeoutTime - 1;
        k := k + 1;
      }
      if timeoutTime == 0 {
        bits := bits + {ESPTOUCH_TIMEOUT_BIT};
      }
    }

    /** `smart_config_get_timeout_time`: the remaining time in seconds. */
    method GetTimeoutTime() returns (seconds: int)
      ensures seconds == Half(timeoutTime)
    {
      seconds := Half(timeoutTime);
    }

    /** `smart_config_cancel`: asks the task to stop. */
    method Cancel() returns (r: Err)
      modifies this`bits
      ensures !created ==> r == NotSupported && bits == old(bits)
      ensures created ==> r == Ok && bits == old(bits) + {ESPTOUCH_CANCEL0_BIT}
    {
      if !created {
        return NotSupported;
      }
      bits := bits + {ESPTOUCH_CANCEL0_BIT};
      r := Ok;
    }

    /**
     * `smart_config_wait` once the wait returns with the group as it is:
     * the outcome bits are taken (cleared) and decoded.
     */
    method Wait() returns (r: Err)
      modifies this`bits
      ensures !created ==> r == NotSupported && bits == old(bits)
      ensures created ==> r == Decode(old(bits)) && bits == ClearOut(old(bits))
    {
      if !created {
        return NotSupported;
      }
      var ux := bits;
      bits := ClearOut(bits);
      r := Decode(ux);
    }
  }
}
