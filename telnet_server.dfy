/**
 * The Telnet-to-UART bridge around the codec: the fixed table of eight
 * client slots, accepting into the first free slot, servicing one slot
 * (read, filter in place, one UART write, error check), tearing the whole
 * table down when the listener fails, and broadcasting to every open slot.
 *
 * Sockets, `select` and the UART driver are outside the model: what the
 * bridge does to them is recorded, in order, in the fields `uart`, `sent`
 * and `closed`, and what they report comes in as parameters.
 */
module TelnetServer {
  import opened Esp
  import opened TelnetCodec

  const CLIENT_MAX := 8
  const READ_BUF_SIZE := 256
  const UART_RX_BUF_SIZE := 1024

  /** The `fd` of a free slot. */
  const FREE := -1

  /** The break length `telnet_uart_send_break` asks the UART driver for. */
  const BREAK_LEN := 128

  const TELOPT_ECHO: Byte := 1
  const TELOPT_SGA: Byte := 3
  const TELOPT_NAWS: Byte := 31

  /** `telnet_ctrl`, sent once to every accepted client: IAC DO ECHO, IAC DO NAWS, IAC WILL ECHO, IAC WILL SGA. */
  const Greeting: seq<Byte> :=
    [IAC, DO, TELOPT_ECHO, IAC, DO, TELOPT_NAWS, IAC, WILL, TELOPT_ECHO, IAC, WILL, TELOPT_SGA]

  /** One slot of `client_fds`: handle (FREE when unused), formatted peer address, codec state. */
  datatype Client = Client(fd: int, ip: string, codec: Codec)

  /** A call into the UART driver: a plain write, or a write followed by a break condition. */
  datatype UartOp = Write(data: seq<Byte>) | WriteWithBreak(data: seq<Byte>, breakLen: nat)

  /** One `lwip_send` to a client socket. */
  datatype Send = Send(fd: int, data: seq<Byte>)

  /** What `lwip_recv` reported for a readable slot: some bytes, or a result <= 0 with or without EWOULDBLOCK in errno. */
  datatype Recv = Received(data: seq<Byte>) | Failed(wouldBlock: bool)

  /** What `telnet_uart_send_break` asks of the driver: one zero byte, then a break. */
  const BreakOp: UartOp := WriteWithBreak([0], BREAK_LEN)

  /** `n` serial breaks in a row. */
  function Breaks(n: nat): (r: seq<UartOp>)
    ensures |r| == n
    ensures forall i :: 0 <= i < n ==> r[i] == BreakOp
  {
    if n == 0 then [] else Breaks(n - 1) + [BreakOp]
  }

  /** The slot the accept loop picks: the first free one, or `|cs|` when every slot is taken. */
  function FirstFree(cs: seq<Client>): (k: nat)
    ensures k <= |cs|
    ensures forall j :: 0 <= j < k ==> cs[j].fd != FREE
    ensures k < |cs| ==> cs[k].fd == FREE
  {
    if cs == [] then 0 else if cs[0].fd == FREE then 0 else 1 + FirstFree(cs[1..])
  }

  /** The sends of one broadcast, in slot order: one per slot in use, each carrying the payload. */
  function Broadcast(cs: seq<Client>, payload: seq<Byte>): seq<Send>
  {
    if cs == [] then []
    else
      var last := cs[|cs| - 1];
      Broadcast(cs[..|cs| - 1], payload) + if last.fd != FREE then [Send(last.fd, payload)] else []
  }

  /** The handles the teardown loop closes, in slot order (those greater than FREE). */
  function OpenFds(cs: seq<Client>): seq<int>
  {
    if cs == [] then []
    else
      var last := cs[|cs| - 1];
      OpenFds(cs[..|cs| - 1]) + if last.fd > FREE then [last.fd] else []
  }

  /** The bytes `telnet_send_to_all` sends: `len` bytes, or up to the terminator when `len` is 0. */
  function Payload(data: seq<Byte>, len: nat): (p: seq<Byte>)
    requires len <= |data| && (len == 0 ==> 0 in data)
    ensures len > 0 ==> p == data[..len]
    ensures len == 0 ==> 0 !in p && |p| < |data| && data[|p|] == 0 && p == data[..|p|]
  {
    if len == 0 then data[..Strlen(data)] else data[..len]
  }

  /** The line broadcast for an application event, if any. */
  function Notice(e: AppEvent): Option<string>
  {
    match e
    case PowerDown => Some(">>> Wireless serial: Power down <<<\r\n")
    case PowerOn => Some(">>> Wireless serial: Power on <<<\r\n")
    case PowerLow => Some(">>> Wireless serial: Low power <<<\r\n")
    case DevNameChanged => None
  }

  /** Every send of a broadcast carries the payload to a handle in use. */
  lemma {:induction false} BroadcastCarriesPayload(cs: seq<Client>, payload: seq<Byte>)
    ensures forall s :: s in Broadcast(cs, payload) ==> s.data == payload && s.fd != FREE
    decreases |cs|
  {
    if cs != [] {
      BroadcastCarriesPayload(cs[..|cs| - 1], payload);
    }
  }

  /** A handle is sent the payload exactly when some slot holds it. */
  lemma {:induction false} BroadcastReachesOpenSlots(cs: seq<Client>, payload: seq<Byte>, fd: int)
    requires fd != FREE
    ensures Send(fd, payload) in Broadcast(cs, payload) <==> exists k :: 0 <= k < |cs| && cs[k].fd == fd
    decreases |cs|
  {
    if cs != [] {
      var init := cs[..|cs| - 1];
      BroadcastReachesOpenSlots(init, payload, fd);
      if exists k :: 0 <= k < |cs| && cs[k].fd == fd {
        var k :| 0 <= k < |cs| && cs[k].fd == fd;
        if k < |cs| - 1 {
          assert init[k].fd == fd;
        }
      }
      if Send(fd, payload) in Broadcast(init, payload) {
        var k :| 0 <= k < |init| && init[k].fd == fd;
        assert cs[k].fd == fd;
      }
    }
  }

  /** Teardown closes exactly the handles of the slots in use. */
  lemma {:induction false} OpenFdsAreSlotHandles(cs: seq<Client>)
    ensures forall fd :: fd in OpenFds(cs) <==> fd > FREE && exists k :: 0 <= k < |cs| && cs[k].fd == fd
    decreases |cs|
  {
    if cs != [] {
      var init := cs[..|cs| - 1];
      OpenFdsAreSlotHandles(init);
      forall fd ensures fd in OpenFds(cs) <==> fd > FREE && exists k :: 0 <= k < |cs| && cs[k].fd == fd
      {
        if fd > FREE && exists k :: 0 <= k < |cs| && cs[k].fd == fd {
          var k :| 0 <= k < |cs| && cs[k].fd == fd;
          if k < |cs| - 1 { assert init[k].fd == fd; }
        }
        if fd in OpenFds(init) {
          var k :| 0 <= k < |init| && init[k].fd == fd;
          assert cs[k].fd == fd;
        }
      }
    }
  }

  /** The accept loop rejects exactly when every slot is taken. */
  lemma FullTableRejects(cs: seq<Client>)
    ensures FirstFree(cs) == |cs| <==> forall k :: 0 <= k < |cs| ==> cs[k].fd != FREE
  {
  }

  /**
   * A client that answers with a negotiation (IAC verb option) and then
   * types plain text has exactly that text, less any NUL, forwarded, and no
   * break; the slot is left idle with the verb pending in `opt`.
   */
  lemma NegotiationThenData(c: Codec, verb: Byte, option: Byte, text: seq<Byte>)
    requires c.fsm == Idle && IsVerb(verb) && IAC !in text
    ensures Run(c, [IAC, verb, option] + text) == Trace(Codec(Idle, verb), WithoutNul(text), 0)
  {
    NegotiationAbsorbed(c, verb, option);
    PlainDataForwarded(Codec(Idle, verb), text);
    RunAppend(c, [IAC, verb, option], text);
  }

  /**
   * The bridge's shared state: `client_fds`, plus the record of what it asked
   * of the UART driver and of the socket layer.
   */
  class Server {
    var clients: array<Client>
    var uart: seq<UartOp>
    var sent: seq<Send>
    var closed: seq<int>

    /** Eight slots, each with a codec state reachable from the zero-initialised one. */
    ghost predicate Valid()
      reads this, clients
    {
      clients.Length == CLIENT_MAX
      && forall k :: 0 <= k < CLIENT_MAX ==> WellFormed(clients[k].codec)
    }

    /** `telnet_init`: every slot free; static zero-initialisation leaves the codec idle with opt 0. */
    constructor ()
      ensures Valid() && fresh(clients)
      ensures forall k :: 0 <= k < CLIENT_MAX ==> clients[k] == Client(FREE, "", Codec(Idle, 0))
      ensures uart == [] && sent == [] && closed == []
    {
      clients := new Client[CLIENT_MAX](_ => Client(FREE, "", Codec(Idle, 0)));
      uart, sent, closed := [], [], [];
    }

    /**
     * A readable listener: `fd` is what `lwip_accept` returned and `ip` the
     * formatted peer address. The first free slot gets `fd` and `ip` only
     * (its codec state is kept as it was), and the greeting is sent; with
     * every slot taken the new handle is closed instead. The "placed" mark
     * is `fd` overwritten with 0, so a rejected handle 0 is not closed.
     */
    method Accept(fd: int, ip: string)
      requires Valid()
      modifies clients, this`sent, this`closed
      ensures Valid() && clients == old(clients) && uart == old(uart)
      ensures var k := FirstFree(old(clients[..]));
        if fd == FREE then
          clients[..] == old(clients[..]) && sent == old(sent) && closed == old(closed)
        else if k < CLIENT_MAX then
          clients[..] == old(clients[..])[k := Client(fd, ip, old(clients[k].codec))]
          && sent == old(sent) + [Send(fd, Greeting)] && closed == old(closed)
        else
          clients[..] == old(clients[..]) && sent == old(sent)
          && closed == old(closed) + if fd != 0 then [fd] else []
    {
      if fd == FREE {
        return;  // accept failed: logged only
      }
      var pending := fd;
      var i := 0;
      while i < CLIENT_MAX
        invariant 0 <= i <= CLIENT_MAX
        invariant clients[..] == old(clients[..]) && sent == old(sent)
        invariant forall j :: 0 <= j < i ==> clients[j].fd != FREE
        invariant pending == fd
      {
        if clients[i].fd == FREE {
          clients[i] := clients[i].(fd := fd, ip := ip);
          sent := sent + [Send(fd, Greeting)];
          pending := 0;
          break;
        }
        i := i + 1;
      }
      if pending != 0 {
        closed := closed + [pending];
      }
    }

    /**
     * One byte of the filtering loop: `buf[j]` goes through the codec, a
     * break is sent at once, and a kept byte is written at `sendLen`, the
     * end of the compacted run `t.out` so far.
     */
    method FilterByte(codec: Codec, buf: array<Byte>, j: nat, sendLen: nat, ghost t: Trace)
      returns (next: Codec, sendLen': nat)
      requires sendLen <= j < buf.Length
      requires codec == t.codec && sendLen == |t.out|
      requires forall k :: 0 <= k < sendLen ==> buf[k] == t.out[k]
      modifies buf, this`uart
      ensures var t' := Advance(t, old(buf[j]));
        next == t'.codec && sendLen' == |t'.out| <= j + 1
        && (forall k :: 0 <= k < sendLen' ==> buf[k] == t'.out[k])
        && uart == old(uart) + (if t'.breaks == t.breaks then [] else [BreakOp])
      ensures forall k :: j < k < buf.Length ==> buf[k] == old(buf[k])
    {
      var s := ProcIac(codec, buf[j]);
      next := s.next;
      if s.brk {
        uart := uart + [BreakOp];
      }
      sendLen' := sendLen;
      if s.out != DISCARD {
        buf[sendLen] := s.out;
        sendLen' := sendLen + 1;
      }
    }

    /**
     * The filtering loop of `telnet_recv`: the first `rdLen` bytes of `buf`
     * pass through the codec one by one, kept bytes are compacted to the
     * front of `buf`, and each IAC BRK sends a break on the UART at once.
     */
    method Filter(codec: Codec, buf: array<Byte>, rdLen: nat) returns (sendLen: nat, next: Codec)
      requires rdLen <= buf.Length
      modifies buf, this`uart
      ensures var r := Run(codec, old(buf[..rdLen]));
        sendLen == |r.out| && sendLen <= rdLen && buf[..sendLen] == r.out && next == r.codec
        && uart == old(uart) + Breaks(r.breaks)
    {
      ghost var input := buf[..rdLen];
      ghost var t := Run(codec, []);
      next := codec;
      sendLen := 0;
      var j := 0;
      while j < rdLen
        invariant 0 <= j <= rdLen
        invariant t == Run(codec, input[..j])
        invariant sendLen == |t.out| <= j
        invariant forall k :: 0 <= k < sendLen ==> buf[k] == t.out[k]
        invariant next == t.codec
        invariant uart == old(uart) + Breaks(t.breaks)
        invariant forall k :: j <= k < rdLen ==> buf[k] == input[k]
      {
        RunPrefixStep(codec, input, j);
        next, sendLen := FilterByte(next, buf, j, sendLen, t);
        t := Advance(t, input[j]);
        j := j + 1;
      }
      assert input[..rdLen] == input;
      assert buf[..sendLen] == t.out;
    }

    /**
     * A received buffer for slot `i`: filtered through the slot's codec,
     * which keeps the state it ends in, and the forwarded run written to the
     * UART in one call when it is not empty.
     */
    method Forward(i: nat, buf: array<Byte>, rdLen: nat) returns (sendLen: nat)
      requires Valid() && i < CLIENT_MAX
      requires buf.Length == READ_BUF_SIZE && 0 < rdLen <= buf.Length
      modifies buf, clients, this`uart
      ensures Valid() && clients == old(clients) && sent == old(sent) && closed == old(closed)
      ensures var r := Run(old(clients[i].codec), old(buf[..rdLen]));
        sendLen == |r.out| && sendLen <= rdLen && buf[..sendLen] == r.out
        && clients[..] == old(clients[..])[i := old(clients[i]).(codec := r.codec)]
        && uart == old(uart) + Breaks(r.breaks) + if sendLen > 0 then [Write(r.out)] else []
    {
      var codec;
      sendLen, codec := Filter(clients[i].codec, buf, rdLen);
      RunWellFormed(old(clients[i].codec), old(buf[..rdLen]));
      clients[i] := clients[i].(codec := codec);
      if sendLen > 0 {
        uart := uart + [Write(buf[..sendLen])];
      }
    }

    /**
     * One pass of the worker's per-slot loop for slot `i`: `readable` and
     * `errored` are what `select` reported for its handle, `recv` what
     * `lwip_recv` returned. A read failure other than EWOULDBLOCK frees the
     * slot; EWOULDBLOCK skips the rest of the pass, error check included;
     * received bytes are forwarded. Then an error flag frees the slot.
     */
    method ServiceSlot(i: nat, readable: bool, errored: bool, recv: Recv)
      requires Valid() && i < CLIENT_MAX
      requires recv.Received? ==> 0 < |recv.data| <= READ_BUF_SIZE
      modifies clients, this`uart, this`closed
      ensures Valid() && clients == old(clients) && sent == old(sent)
      ensures forall k :: 0 <= k < CLIENT_MAX && k != i ==> clients[k] == old(clients[k])
      ensures var c0 := old(clients[i]);
        c0.fd == FREE ==> clients[i] == c0 && uart == old(uart) && closed == old(closed)
      ensures var c0 := old(clients[i]);
        c0.fd != FREE && !readable ==>
          uart == old(uart)
          && clients[i] == (if errored then c0.(fd := FREE) else c0)
          && closed == old(closed) + if errored then [c0.fd] else []
      ensures var c0 := old(clients[i]);
        c0.fd != FREE && readable && recv.Failed? ==>
          uart == old(uart)
          && clients[i] == (if recv.wouldBlock then c0 else c0.(fd := FREE))
          && closed == old(closed) + if recv.wouldBlock then [] else [c0.fd]
      ensures var c0 := old(clients[i]);
        c0.fd != FREE && readable && recv.Received? ==>
          var r := Run(c0.codec, recv.data);
          uart == old(uart) + Breaks(r.breaks) + (if r.out != [] then [Write(r.out)] else [])
          && clients[i] == (if errored then Client(FREE, c0.ip, r.codec) else c0.(codec := r.codec))
          && closed == old(closed) + if errored then [c0.fd] else []
    {
      if readable && clients[i].fd != FREE {
        match recv {
          case Failed(wouldBlock) =>
            if wouldBlock {
              return;  // `continue`
            }
            closed := closed + [clients[i].fd];
            clients[i] := clients[i].(fd := FREE);
          case Received(data) =>
            var buf := new Byte[READ_BUF_SIZE](k => if 0 <= k < |data| then data[k] else 0);
            assert buf[..|data|] == data;
            var sendLen := Forward(i, buf, |data|);
        }
      }
      if errored && clients[i].fd != FREE {
        closed := closed + [clients[i].fd];
        clients[i] := clients[i].(fd := FREE);
      }
    }

    /**
     * The listener failed: every slot in use is closed, and every slot is
     * reset to free, idle and opt 0; then the listener itself is closed.
     */
    method Teardown(listener: int)
      requires Valid()
      modifies clients, this`closed
      ensures Valid() && clients == old(clients) && uart == old(uart) && sent == old(sent)
      ensures forall k :: 0 <= k < CLIENT_MAX ==> clients[k] == Client(FREE, old(clients[k].ip), Codec(Idle, 0))
      ensures closed == old(closed) + OpenFds(old(clients[..])) + [listener]
    {
      var i := 0;
      while i < CLIENT_MAX
        invariant 0 <= i <= CLIENT_MAX
        invariant forall k :: 0 <= k < i ==> clients[k] == Client(FREE, old(clients[k].ip), Codec(Idle, 0))
        invariant forall k :: i <= k < CLIENT_MAX ==> clients[k] == old(clients[k])
        invariant closed == old(closed) + OpenFds(old(clients[..])[..i])
      {
        assert old(clients[..])[..i + 1][..i] == old(clients[..])[..i];
        if clients[i].fd > FREE {
          closed := closed + [clients[i].fd];
        }
        clients[i] := Client(FREE, clients[i].ip, Codec(Idle, 0));
        i := i + 1;
      }
      assert old(clients[..])[..CLIENT_MAX] == old(clients[..]);
      closed := closed + [listener];
    }

    /** `telnet_send_to_all`: the same bytes to every slot in use, in slot order; `len` 0 means up to the terminator. */
    method SendToAll(data: seq<Byte>, len: nat)
      requires Valid()
      requires len <= |data| && (len == 0 ==> 0 in data)
      modifies this`sent
      ensures sent == old(sent) + Broadcast(clients[..], Payload(data, len))
    {
      var n := if len == 0 then Strlen(data) else len;
      var i := 0;
      while i < CLIENT_MAX
        invariant 0 <= i <= CLIENT_MAX
        invariant sent == old(sent) + Broadcast(clients[..i], data[..n])
      {
        assert clients[..i + 1][..i] == clients[..i];
        if clients[i].fd != FREE {
          sent := sent + [Send(clients[i].fd, data[..n])];
        }
        i := i + 1;
      }
      assert clients[..CLIENT_MAX] == clients[..];
    }

    /** `telnet_event_handler`: the three power events broadcast their line; any other event does nothing. */
    method EventHandler(e: AppEvent)
      requires Valid()
      modifies this`sent
      ensures sent == old(sent) + match Notice(e)
        case None => []
        case Some(line) => Broadcast(clients[..], Payload(Ascii(line) + [0], 0))
    {
      match Notice(e) {
        case None =>
        case Some(line) =>
          SendToAll(Ascii(line) + [0], 0);
      }
    }

    /** A UART data event: the bytes read from the driver go unchanged to every slot in use. */
    method UartData(bytes: seq<Byte>)
      requires Valid()
      requires 0 < |bytes| <= UART_RX_BUF_SIZE
      modifies this`sent
      ensures sent == old(sent) + Broadcast(clients[..], bytes)
    {
      SendToAll(bytes, |bytes|);
      assert bytes[..|bytes|] == bytes;
    }
  }
}
