/**
 * The console's output redirection table and its command-result reporting.
 *
 * A task can register a write function; `console_printf` called from that
 * task then goes through that function instead of the default console.
 * Task handles and write functions are modelled by identity, with 0 for
 * NULL; the formatted text of a printf call is a parameter.
 */
module Console {
  import opened Esp

  const REDIRECTION_LIST_LEN := 2

  /** The static buffer `console_printf` formats into. */
  const PRINTF_BUF_SIZE := 512

  /** A task handle or a write function, by identity. */
  type Handle = nat

  const NULL: Handle := 0

  /** One slot of `redirection_list`. */
  datatype Entry = Entry(task: Handle, write: Handle)

  /** The table after a registration call, and what the call returned. */
  datatype Registration = Registration(entries: seq<Entry>, result: int)

  /** A call of a redirection's write function: the bytes in the buffer and the length passed with them. */
  datatype WriteCall = WriteCall(write: Handle, data: seq<Byte>, len: nat)

  /** The table of a freshly started firmware: both slots unused. */
  function Empty(): seq<Entry>
  {
    [Entry(NULL, NULL), Entry(NULL, NULL)]
  }

  /** The slot registration picks: the first with a NULL task, or `|es|` when there is none. */
  function FirstUnused(es: seq<Entry>): (k: nat)
    ensures k <= |es|
    ensures forall j :: 0 <= j < k ==> es[j].task != NULL
    ensures k < |es| ==> es[k].task == NULL
  {
    if es == [] then 0 else if es[0].task == NULL then 0 else 1 + FirstUnused(es[1..])
  }

  /** The slot `console_printf` routes through for a task: the first whose task matches and whose write is set, or `|es|`. */
  function Route(es: seq<Entry>, task: Handle): (k: nat)
    ensures k <= |es|
    ensures forall j :: 0 <= j < k ==> !(es[j].task == task && es[j].write != NULL)
    ensures k < |es| ==> es[k].task == task && es[k].write != NULL
  {
    if es == [] then 0
    else if es[0].task == task && es[0].write != NULL then 0
    else 1 + Route(es[1..], task)
  }

  /** `console_register_redirection` on a table. */
  function Registered(es: seq<Entry>, task: Handle, write: Handle): Registration
  {
    if task == NULL || write == NULL then Registration(es, -Code(InvalidArg))
    else
      var k := FirstUnused(es);
      if k < |es| then Registration(es[k := Entry(task, write)], k)
      else Registration(es, -Code(NoMem))
  }

  /**
   * What a registration returns, and that it changes at most the slot it
   * returns: NULL arguments give -ESP_ERR_INVALID_ARG, a full table
   * -ESP_ERR_NO_MEM, and both leave the table as it was.
   */
  lemma RegisteredResult(es: seq<Entry>, task: Handle, write: Handle)
    ensures var r := Registered(es, task, write);
      |r.entries| == |es|
      && (task == NULL || write == NULL ==> r == Registration(es, -Code(InvalidArg)))
      && (task != NULL && write != NULL ==>
            (r.result == -Code(NoMem) <==> forall j :: 0 <= j < |es| ==> es[j].task != NULL))
      && (r.result < 0 ==> r.entries == es)
      && (0 <= r.result ==>
            r.result < |es| && es[r.result].task == NULL
            && r.entries[r.result] == Entry(task, write)
            && forall j :: 0 <= j < |es| && j != r.result ==> r.entries[j] == es[j])
  {
  }

  /** Nothing stops one task from taking both slots. */
  lemma SameTaskTwice(task: Handle, write: Handle)
    requires task != NULL && write != NULL
    ensures var first := Registered(Empty(), task, write);
      var second := Registered(first.entries, task, write);
      first.result == 0 && second.result == 1
      && second.entries == [Entry(task, write), Entry(task, write)]
  {
    var first := Registered(Empty(), task, write);
    assert FirstUnused(Empty()) == 0;
    assert first.entries == [Entry(task, write), Entry(NULL, NULL)];
    assert FirstUnused(first.entries) == 1;
  }

  /** Once a task not yet in the table has registered, its printf output goes through the slot the registration returned. */
  lemma RegisterThenRoute(es: seq<Entry>, task: Handle, write: Handle)
    requires forall j :: 0 <= j < |es| ==> es[j].task != task
    requires 0 <= Registered(es, task, write).result
    ensures var r := Registered(es, task, write); Route(r.entries, task) == r.result
  {
    RegisteredResult(es, task, write);
  }

  /** What `console_run_command` prints for the result of `esp_console_run`. */
  datatype Report = Unrecognized | NonZero(code: int) | Internal(err: Err)

  /**
   * `console_run_command`: `err` and `ret` are what `esp_console_run`
   * reported (`ret` is whatever the variable holds when the run failed
   * before setting it), and `ret` is returned unchanged.
   */
  function RunCommand(err: Err, ret: int): (r: (Option<Report>, int))
    ensures r.1 == ret
    ensures r.0 == Some(Unrecognized) <==> err == NotFound
    ensures r.0 == None <==> err == InvalidArg || (err == Ok && ret == 0)
    ensures (exists c :: r.0 == Some(NonZero(c))) <==> err == Ok && ret != 0
    ensures r.0 == Some(NonZero(ret)) || !(exists c :: r.0 == Some(NonZero(c)))
    ensures (exists e :: r.0 == Some(Internal(e))) <==> err != Ok && err != NotFound && err != InvalidArg
    ensures r.0 == Some(Internal(err)) || !(exists e :: r.0 == Some(Internal(e)))
  {
    if err == NotFound then (Some(Unrecognized), ret)
    else if err == InvalidArg then (None, ret)
    else if err == Ok && ret != 0 then (Some(NonZero(ret)), ret)
    else if err != Ok then (Some(Internal(err)), ret)
    else (None, ret)
  }

  /** The static `redirection_list`. */
  class Redirections {
    var list: array<Entry>

    ghost predicate Valid()
      reads this
    {
      list.Length == REDIRECTION_LIST_LEN
    }

    /** Static zero-initialisation: both slots unused. */
    constructor ()
      ensures Valid() && fresh(list) && list[..] == Empty()
    {
      list := new Entry[REDIRECTION_LIST_LEN](_ => Entry(NULL, NULL));
    }

    /** `console_register_redirection`: scan for the first unused slot and fill it. */
    method Register(task: Handle, write: Handle) returns (r: int)
      requires Valid()
      modifies list
      ensures Valid()
      ensures var reg := Registered(old(list[..]), task, write); list[..] == reg.entries && r == reg.result
    {
      if task == NULL || write == NULL {
        return -Code(InvalidArg);
      }
      var i := 0;
      while i < REDIRECTION_LIST_LEN
        invariant 0 <= i <= REDIRECTION_LIST_LEN
        invariant forall j :: 0 <= j < i ==> list[j].task != NULL
        invariant list[..] == old(list[..])
      {
        if list[i].task == NULL {
          list[i] := Entry(task, write);
          return i;
        }
        i := i + 1;
      }
      return -Code(NoMem);
    }

    /**
     * Routing in `console_printf` for a call from task `current` whose
     * formatted text is `text`: the first matching redirection is called
     * with the buffer (at most PRINTF_BUF_SIZE - 1 bytes of text) and the
     * full formatted length, and its result `writeResult` is returned;
     * without one, the formatted length is returned and nothing is written.
     */
    method Printf(current: Handle, text: seq<Byte>, writeResult: int) returns (r: int, call: Option<WriteCall>)
      requires Valid()
      ensures var k := Route(list[..], current);
        if k < REDIRECTION_LIST_LEN then
          r == writeResult && call.Some? && call.value.write == list[k].write
          && call.value.len == |text| && call.value.data <= text
          && |call.value.data| == if |text| < PRINTF_BUF_SIZE then |text| else PRINTF_BUF_SIZE - 1
        else
          r == |text| && call == None
    {
      var buffered := if |text| < PRINTF_BUF_SIZE then text else text[..PRINTF_BUF_SIZE - 1];
      r := |text|;
      call := None;
      var i := 0;
      while i < REDIRECTION_LIST_LEN
        invariant 0 <= i <= REDIRECTION_LIST_LEN
        invariant forall j :: 0 <= j < i ==> !(list[j].task == current && list[j].write != NULL)
        invariant r == |text| && call == None
      {
        if list[i].task == current && list[i].write != NULL {
          call := Some(WriteCall(list[i].write, buffered, r));
          r := writeResult;
          break;
        }
        i := i + 1;
      }
    }
  }
}
