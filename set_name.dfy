/**
 * The `set-name` console command: the name argument is checked character
 * by character and, when every character is printable ASCII, handed to
 * `conf_set_dev_name`. The command itself always reports success.
 */
module SetName {
  import opened Esp
  import opened Config

  /** A character the command accepts in a name: 0x20 (space) to 0x7E (tilde). */
  predicate Printable(b: Byte)
  {
    0x20 <= b <= 0x7e
  }

  /** A name the command passes on: not empty, and printable throughout. */
  predicate Acceptable(name: CString)
  {
    |name| > 0 && forall i :: 0 <= i < |name| ==> Printable(name[i])
  }

  /**
   * The do-while check over the argument as a C string: it tests the
   * current character before looking for the terminator, so an empty name
   * is rejected on its terminator. Returns the byte it rejected, if any.
   */
  method CheckName(name: CString) returns (bad: Option<Byte>)
    ensures bad == None <==> Acceptable(name)
    ensures |name| == 0 ==> bad == Some(0)
    ensures bad.Some? && |name| > 0 ==>
      exists k :: 0 <= k < |name| && bad.value == name[k] && !Printable(name[k])
                  && forall j :: 0 <= j < k ==> Printable(name[j])
  {
    var c := name + [0];
    var p := 0;
    while true
      invariant 0 <= p < |c|
      invariant p < |name| || p == 0
      invariant forall j :: 0 <= j < p ==> Printable(c[j])
      decreases |c| - p
    {
      if c[p] < 0x20 || c[p] > 0x7e {
        if p < |name| {
          assert c[p] == name[p] && !Printable(name[p]);
          assert forall j :: 0 <= j < p ==> name[j] == c[j];
        }
        return Some(c[p]);
      }
      p := p + 1;
      if c[p] == 0 {
        break;
      }
    }
    assert p == |name|;
    assert forall j :: 0 <= j < |name| ==> name[j] == c[j];
    return None;
  }

  /**
   * `set_name_cmd_cb`: a rejected name leaves the store alone; an accepted
   * one goes to `conf_set_dev_name` unchanged, whose error, if any, is
   * reported. Either way the command returns ESP_OK.
   */
  method SetNameCmd(storage: Storage, name: CString, openErr: Err, writeErr: Err)
    returns (r: Err, rejected: Option<Byte>, reported: Option<Err>)
    modifies storage
    ensures r == Ok
    ensures rejected == None <==> Acceptable(name)
    ensures rejected.Some? ==>
      storage.nvs == old(storage.nvs) && storage.posted == old(storage.posted) && reported == None
    ensures rejected == None ==>
      var s := SetDevName(old(storage.nvs), name, openErr, writeErr);
      storage.nvs == s.nvs
      && storage.posted == old(storage.posted) + (if s.posted then [DevNameChanged] else [])
      && reported == if s.err != Ok then Some(s.err) else None
  {
    reported := None;
    rejected := CheckName(name);
    if rejected.Some? {
      return Ok, rejected, reported;
    }
    var err := storage.ConfSetDevName(name, openErr, writeErr);
    if err != Ok {
      reported := Some(err);
    }
    r := Ok;
  }
}
