# wifi_uart firmware core, modelled in Dafny

This project models the logic of a wireless serial bridge that runs on an
ESP32. The bridge forwards a Telnet session to UART1 and broadcasts UART
data back to every client. It also drives a 128x32 monochrome panel with two
buttons, keeps its settings in NVS, takes console commands, manages the
station's Wi-Fi connection and provisions credentials through SmartConfig.

| file | module | what it models |
|---|---|---|
| `esp.dfy` | `Esp` | bytes, C strings, `esp_err_t` codes, event-group bits |
| `telnet_codec.dfy` | `TelnetCodec` | `telnet_proc_iac` / `telnet_proc_cmd` as a step function over (state, byte), and its fold over a buffer |
| `telnet_server.dfy` | `TelnetServer` | the eight-slot client table, accept, the in-place filter, slot release, teardown, broadcast, the event handler |
| `display.dfy` | `Display` | the newer panel driver's pixel plot, area rounder and two-button key scan |
| `oled.dfy` | `Oled` | the older panel driver's pixel plot and its bounds guard |
| `console.dfy` | `Console` | the redirection table, printf routing, command-result reporting |
| `config.dfy` | `Config` | `conf_get_dev_name`, `conf_set_dev_name`, `conf_get_uart_param` over an NVS value |
| `set_name.dfy` | `SetName` | the `set-name` command's character check |
| `set_uart.dfy` | `SetUart` | the `set-uart` command's validate-apply-save sequence |
| `wifi_manager.dfy` | `WifiManager` | the Wi-Fi event group, the retry counter, the connection record, the handlers and the setters |
| `smart_config.dfy` | `SmartConfig` | start, the countdown task, the remaining-time query, cancel and the outcome decode |

Foreign calls are not modelled as code: lwIP, the UART driver, NVS
open/write, `esp_wifi_*` and FreeRTOS object creation. What they report is a
parameter of the model, such as `openErr`, `writeErr`, `connectErr`,
`createOk` or `recv`. What the bridge asks of them is recorded in fields,
such as `Server.uart`, `Server.sent`, `Server.closed` and `Storage.posted`.
Event groups are sets of bit indices. A blocking wait is modelled by the
bits it returns with.

State that the C code updates in place is modelled as classes:

- `Server` holds the client table.
- `KeyScanner` holds the key-scan statics.
- `Redirections`, `Storage`, `Uart`, `Wifi` and `Provisioner` hold the rest.

The methods of these classes are proved against pure functions. Those
functions carry the lemmas that state what the firmware promises.

## Model

| member | source | states |
|---|---|---|
| TelnetCodec.ProcIac | main/telnet/telnet_server.c:332-383 | A byte is returned (not the 0xFF marker) exactly when the slot is idle and the byte is neither NUL nor IAC, and it is returned unchanged. A break is sent exactly for IAC BRK, or when a pending verb equal to BRK meets its option byte. `opt` changes only when IAC is followed by a verb, and it becomes that verb. The state becomes "command" exactly then. |
| TelnetCodec.Run | main/telnet/telnet_server.c:276-284 | At most one byte is forwarded and at most one break is sent per input byte. No forwarded byte is NUL or 0xFF. |
| TelnetCodec.RunAppend | main/telnet/telnet_server.c:276-284 | Filtering a + b equals filtering a, then filtering b from the state a ends in. The outputs and the break counts add up. |
| TelnetCodec.RunPrefixStep | main/telnet/telnet_server.c:276-284 | The filter over the first j+1 bytes is one more automaton step after the filter over the first j bytes. |
| TelnetCodec.PlainDataForwarded | main/telnet/telnet_server.c:336-346 | From idle, input without IAC is forwarded unchanged and in order, except that NUL bytes are dropped. No break is sent and the slot stays idle. |
| TelnetCodec.NegotiationAbsorbed | main/telnet/telnet_server.c:347-356 | IAC followed by DO, DONT, WILL or WONT and then any option byte forwards nothing and sends no break. It leaves the slot idle with the verb in `opt`. |
| TelnetCodec.BreakCommand | main/telnet/telnet_server.c:360-363 | IAC BRK sends exactly one break, forwards nothing and returns to idle. |
| TelnetCodec.OtherCommandDropped | main/telnet/telnet_server.c:364-366 | IAC followed by any byte that is not a verb, SB or BRK is dropped, and the slot returns to idle. This includes IAC IAC, the escaped data byte. |
| TelnetCodec.SubNegotiationPayload | main/telnet/telnet_server.c:368-373 | Inside a sub-negotiation, every byte other than IAC is discarded and the state is kept. |
| TelnetCodec.SubNegotiationSkipped | main/telnet/telnet_server.c:357-376 | IAC SB, then a payload without IAC, then IAC and any byte (SE or not) forwards nothing and sends no break. The slot is idle again afterwards. |
| TelnetCodec.Resynchronise | main/telnet/telnet_server.c:334-383 | From any reachable state, IAC SE returns the slot to idle without a break. At most the SE byte itself is forwarded. |
| TelnetCodec.StepWellFormed | main/telnet/telnet_server.c:322-330 | A step keeps a reachable state reachable. In a reachable state a break is sent exactly for IAC BRK, because a stored verb is never BRK. |
| TelnetCodec.RunWellFormed | main/telnet/telnet_server.c:332-383 | Any run from a reachable state ends in a reachable state. |
| TelnetServer.Breaks | main/telnet/telnet_server.c:316-320 | n breaks are n identical driver calls, each writing one zero byte followed by a 128-tick break. |
| TelnetServer.FirstFree | main/telnet/telnet_server.c:221-231 | The accept loop picks the first slot whose handle is -1. Every earlier slot is in use. |
| TelnetServer.FullTableRejects | main/telnet/telnet_server.c:233-240 | The new connection is rejected exactly when all eight slots are in use. |
| TelnetServer.Payload | main/telnet/telnet_server.c:396-397 | A length of 0 means the bytes up to the terminator; otherwise exactly `len` bytes are sent. |
| TelnetServer.BroadcastCarriesPayload | main/telnet/telnet_server.c:398-402 | Every send of a broadcast carries the whole payload to a handle in use. |
| TelnetServer.BroadcastReachesOpenSlots | main/telnet/telnet_server.c:398-402 | A handle receives the payload exactly when some slot holds it. |
| TelnetServer.OpenFdsAreSlotHandles | main/telnet/telnet_server.c:302-308 | Teardown closes exactly the handles greater than -1 held by slots. |
| TelnetServer.NegotiationThenData | main/telnet/telnet_server.c:336-356 | A client that answers the greeting with IAC verb option and then types text without IAC has exactly that text, less NULs, forwarded. No break is sent, and the slot is left idle with the verb in `opt`. |
| TelnetServer.Server.constructor | main/telnet/telnet_server.c:86-91 | Every slot is free, idle with `opt` 0, and nothing has been sent. |
| TelnetServer.Server.Accept | main/telnet/telnet_server.c:214-246 | The first free slot gets the handle and address, but keeps its `fsm` and `opt`. The 12-byte greeting is sent to it. With all slots in use, the handle is shut down and closed and no slot changes; a rejected handle 0 is not closed. A failed accept changes nothing. |
| TelnetServer.Server.FilterByte | main/telnet/telnet_server.c:278-283 | One byte goes through the slot's automaton. A kept byte is written at `send_len`, a break is sent at once, and no byte past the one read changes. |
| TelnetServer.Server.Filter | main/telnet/telnet_server.c:274-284 | After the loop, `read_buf[0..send_len)` is exactly the filter output of the bytes read, in order. The UART record grows by exactly that run's breaks, and the codec state is the one the run ends in. |
| TelnetServer.Server.Forward | main/telnet/telnet_server.c:272-288 | The slot keeps the state its run ended in. The forwarded bytes are written to UART1 in one call, after the breaks, and only when there is at least one. |
| TelnetServer.Server.ServiceSlot | main/telnet/telnet_server.c:254-298 | A failed read other than EWOULDBLOCK closes the slot and frees it. EWOULDBLOCK skips the rest of the pass, error check included. Received bytes are forwarded. An error flag then frees the slot. No other slot changes. |
| TelnetServer.Server.Teardown | main/telnet/telnet_server.c:302-313 | Every slot in use is closed, in slot order, then the listener is closed. Every slot is left free, idle, with `opt` 0. |
| TelnetServer.Server.SendToAll | main/telnet/telnet_server.c:394-403 | The sends made are the broadcast of the payload to the current table. |
| TelnetServer.Server.EventHandler | main/telnet/telnet_server.c:118-132 | POWER_DOWN, POWER_ON and POWER_LOW each broadcast their line. Any other event sends nothing. |
| TelnetServer.Server.UartData | main/telnet/telnet_server.c:416-419 | The bytes of a UART data event are broadcast unchanged. |
| Display.PlotBit | main/display/display.c:152-160 | After plotting bit k, bit k is lit exactly when requested, and every other bit is as before. |
| Display.PlotBits | main/display/display.c:152-160 | The same statement for all eight bits at once. |
| Display.PlotIdempotent | main/display/display.c:152-160 | Plotting the same pixel twice leaves the byte it would after one call. |
| Display.BitsDetermineByte | main/display/display.c:152-160 | Two bytes that agree on all eight bits are equal, so the bit-level statements fix the byte. |
| Display.SetPx | main/display/display.c:148-161 | `GRAM[y/8][x]` gets bit y mod 8 cleared for colour 0 and set otherwise. Every other byte of the plane is unchanged. |
| Display.Rounder | main/display/display.c:163-167 | y1 moves down to the first row of its page and y2 up to the last row of its page. x1 and x2 are untouched. |
| Display.RounderIdempotent | main/oled/oled.c:156-160 | Rounding twice is rounding once. The older driver's rounder is the same transform. |
| Display.ScanButton | main/display/display.c:194-215 | A press edge sets the counter to 1, holding increments it modulo 2^32, and a release classifies it and clears it. A key comes only from a release edge. The last reading becomes the current one. |
| Display.HeldForCounts | main/display/display.c:196-215 | A press held for n scans leaves the counter at n. |
| Display.PressHoldRelease | main/display/display.c:204-208 | A release after n scans gives the short key for n < 20, the long key for 20 <= n < 100, and nothing for n >= 100. The counter is then cleared. |
| Display.KeyScanner.Scan | main/display/display.c:180-247 | Each button is scanned as above: up gives PREV/ENTER, down gives NEXT/ESC. Down wins when both release in the same scan. The state is PRESSED exactly when a key is reported, and the last-state flags equal the readings. |
| Oled.PolarityInverted | main/oled/oled.c:146-153 | For an opaque pixel, the older driver lights colour 0, the inverse of the newer one. |
| Oled.OffsetIsPageColumn | main/oled/oled.c:148 | The flat offset `(y/8)*128 + x` of an on-panel pixel is page y/8, column x, inside the 512-byte plane. |
| Oled.OffsetInjective | main/oled/oled.c:148 | Two on-panel pixels with the same byte and bit are the same pixel. |
| Oled.SetPx | main/oled/oled.c:138-154 | Past the guard `x > 128 \|\| y > 32`, the byte at offset `(y/8)*128 + x` gets bit y mod 8 set for opaque colour 0 and cleared otherwise. Nothing else changes. An offset past the plane is reported as an overrun. |
| Oled.EdgeColumnAliasesNextPage | main/oled/oled.c:141-148 | The guard admits (128, 0), which writes the byte and bit of pixel (0, 8). |
| Oled.BottomRowOverruns | main/oled/oled.c:141-148 | The guard admits row 32, whose offset is past the 512-byte plane. |
| Oled.SetPxChecked | main/oled/oled.c:138-154 | With the guard `x >= 128 \|\| y >= 32`, an on-panel pixel changes exactly its own bit, and an off-panel one changes nothing. |
| Oled.CheckedPixelsDisjoint | main/oled/oled.c:148 | Under the corrected guard, two different pixels never share a byte and bit. |
| Console.FirstUnused | main/console/console_init.c:122-130 | The first slot with a NULL task, or "none": every earlier slot is taken. |
| Console.Route | main/console/console_init.c:104-111 | The first slot whose task matches and whose write function is set, or "none". |
| Console.RegisteredResult | main/console/console_init.c:116-132 | A NULL argument returns -ESP_ERR_INVALID_ARG. A full table returns -ESP_ERR_NO_MEM; for non-NULL arguments this happens exactly when every slot is taken. Neither changes the table. Success returns the index of a slot that was free, and only that slot changes. |
| Console.SameTaskTwice | main/console/console_init.c:122-130 | Nothing stops one task from registering twice: it then holds both slots, 0 then 1. |
| Console.RegisterThenRoute | main/console/console_init.c:103-130 | After a new task registers, its printf output is routed through the slot the registration returned. |
| Console.RunCommand | main/console/console_init.c:134-155 | NOT_FOUND reports "unrecognized". INVALID_ARG reports nothing. OK with a non-zero `ret` reports that code. Any other error reports an internal error with that code. `ret` is returned unchanged. |
| Console.Redirections.constructor | main/console/console_init.c:35-39 | Both slots start unused. |
| Console.Redirections.Register | main/console/console_init.c:116-132 | The table and the result are those of `Registered` on the old table. |
| Console.Redirections.Printf | main/console/console_init.c:90-114 | On the routed slot, its write is called with the buffered text (at most 511 bytes) and the full formatted length, and its result is returned. Without a route, the formatted length is returned and nothing is written. |
| Config.GetStr | main/config/config.c:23 | Reading a string succeeds exactly when the key exists and the value plus its terminator fits the buffer. Success returns the stored value. A missing key is NVS_NOT_FOUND; otherwise the error is INVALID_LENGTH. |
| Config.GetDevNameGuards | main/config/config.c:8-20 | A buffer shorter than 20 bytes returns INVALID_ARG. A failed open returns its error. Neither touches the store. |
| Config.DefaultNamePersisted | main/config/config.c:22-34 | A missing name reads as "DEVICE" and is stored, so the next read finds it and writes nothing. |
| Config.SetDevNameChanges | main/config/config.c:37-65 | More than 20 characters returns INVALID_SIZE. The name is written, and DEV_NAME_CHANGED posted, exactly when a stored name exists, fits 32 bytes, differs, and the write succeeds. The store changes exactly then. Without a stored name, NOT_FOUND is returned and nothing is written. |
| Config.LongestName | main/config/config.c:39 | A name of exactly 20 characters, the longest `conf_set_dev_name` accepts. |
| Config.LongestNameUnreadable | main/config/config.c:10-23 | A 20-character name is stored successfully, yet reading it through a 20-byte buffer, which the guard admits, fails with INVALID_LENGTH. |
| Config.SetThenGetChecked | main/config/config.c:10-23 | With the guard at 21 bytes, every name the setter stores reads back unchanged through every admitted buffer. |
| Config.UartParamDefaults | main/config/config.c:67-95 | A stored configuration of the right size is returned as stored. A missing or wrongly sized one is replaced by 115200 8N1, no flow control, threshold 122, which is stored, so the next read returns it without writing. |
| Config.Storage.constructor | main/config/config.c:8-95 | The store starts as given, with no events posted. |
| Config.Storage.SetStr | main/config/config.c:27 | The string is stored exactly when the write reports ESP_OK, and the write's result is returned. |
| Config.Storage.SetBlob | main/config/config.c:87 | The blob is stored exactly when the write reports ESP_OK, and the write's result is returned. |
| Config.Storage.ConfGetDevName | main/config/config.c:8-35 | The result, the name and the new store are those of `GetDevNameChecked`: the read with the guard at 21 bytes. |
| Config.Storage.ConfSetDevName | main/config/config.c:37-65 | The result and the new store are those of `SetDevName`. One DEV_NAME_CHANGED is appended exactly when it posts. |
| Config.Storage.ConfGetUartParam | main/config/config.c:67-95 | The result, the caller's struct and the new store are those of `GetUartParam`. |
| SetName.CheckName | main/console/set_name.c:20-27 | No byte is rejected exactly when the name is non-empty and printable throughout. An empty name is rejected on its terminator. Otherwise the rejected byte is the first one outside 0x20..0x7E. |
| SetName.SetNameCmd | main/console/set_name.c:17-35 | A rejected name leaves the store and the events alone. An accepted one has exactly the effect of `conf_set_dev_name`, whose error is reported. The command returns ESP_OK either way. |
| SetUart.WordLengthCode | main/console/set_uart.c:52-63 | Word lengths 5..8 are accepted, as code `w - 5`; anything else is refused. |
| SetUart.StopBitsCode | main/console/set_uart.c:64-89 | 1, 1.5 and 2 stop bits map to the driver's codes 1, 2 and 3; any other value is refused. |
| SetUart.ParityCode | main/console/set_uart.c:90-113 | "DIS", "EVEN" and "ODD" are accepted and map to DISABLE, EVEN and ODD; any other string is refused. |
| SetUart.SavedIffAllAccepted | main/console/set_uart.c:33-123 | The configuration is saved exactly when every given option is accepted. |
| SetUart.AppliedUpToFirstRefusal | main/console/set_uart.c:33-113 | A line setting changes exactly when its option is given and accepted and every earlier option was accepted. A refused baud rate is restored to the old one. |
| SetUart.SavedConfFollowsArgs | main/console/set_uart.c:22-121 | A saved configuration is the stored one with exactly the given options replaced, and it agrees with the line on each given field. |
| SetUart.Uart.constructor | main/console/set_uart.c:19-126 | The port starts with the given line settings. |
| SetUart.SetUartCmd | main/console/set_uart.c:19-126 | The command always returns ESP_OK. A failed NVS open changes nothing. Otherwise the line is the one `Configure` gives from the stored configuration, and the blob is written exactly when `Configure` saves and the write succeeds. |
| WifiManager.WaitEventAllBits | main/wifi_manager/wifi_manager.c:113-116 | The wait succeeds exactly when every requested bit is set, so each one-bit macro tests its own bit. |
| WifiManager.RecordInfo | main/wifi_manager/wifi_manager.c:118-133 | The record is cleared. While connecting, only the retry limit 5 is set; otherwise only the rssi and the end reason are set. |
| WifiManager.Retry | main/wifi_manager/wifi_manager.c:146 | A retry is granted exactly while connecting with a counter below 5. The `uint8_t` counter moves exactly while connecting, wrapping from 255 to 0. |
| WifiManager.DisconnectStep | main/wifi_manager/wifi_manager.c:94-101 | A retry is tried only while not connected. A granted one keeps the attempt and increments the counter. A refused one ends the attempt unless connected. |
| WifiManager.NoAttemptNoRetries | main/wifi_manager/wifi_manager.c:94-101 | With no attempt in progress, no disconnection retries. |
| WifiManager.RetriesAfterConnect | main/wifi_manager/wifi_manager.c:135-159 | Starting from a counter c <= 5 while connecting, n disconnections in a row get exactly min(n, 5 - c) retries. The counter cannot wrap. |
| WifiManager.Strncpy | main/wifi_manager/wifi_manager.c:170 | `strncpy` of `len` bytes copies up to the first NUL, then pads with NULs. |
| WifiManager.Overwrite | main/wifi_manager/wifi_manager.c:170 | Only the first `|bytes|` bytes of the field change. |
| WifiManager.WithSsid | main/wifi_manager/wifi_manager.c:168-188 | The ssid gets the copied bytes and a NUL at `len` when `len` < 32. With `len` == 32, that NUL lands on the first byte of the password. |
| WifiManager.WithSsidChecked | main/wifi_manager/wifi_manager.c:168-188 | The same copy, with the NUL written only when it fits. The password is never touched. |
| WifiManager.WithPassword | main/wifi_manager/wifi_manager.c:175-195 | The password gets the copied bytes and a NUL at `len`. The ssid and the bytes past `len` are untouched. |
| WifiManager.FieldString | main/wifi_manager/wifi_manager.c:168-195 | A C string field reads back as its bytes before the first NUL, or the whole field. |
| WifiManager.FullSsidErasesPassword | main/wifi_manager/wifi_manager.c:170-171 | Setting a full 32-byte ssid as written leaves the stored password reading as empty. |
| WifiManager.CheckedSsidKeepsPassword | main/wifi_manager/wifi_manager.c:168-188 | With the checked setter, the password survives any ssid, and an ssid without NUL reads back whole. |
| WifiManager.ApWithPassword | main/wifi_manager/wifi_manager.c:190-195 | The password starts with the copied bytes and the ssid is kept. Below 64 bytes the result is `WithPassword` with the rest of the AP configuration unchanged. At 64 bytes the terminator lands on `ssid_len`, which becomes 0. |
| WifiManager.ApWithPasswordChecked | main/wifi_manager/wifi_manager.c:190-195 | The same copy, with the terminator written only when it fits. Only the credentials change, and `ssid_len` is kept. |
| WifiManager.FullApPasswordClearsSsidLen | main/wifi_manager/wifi_manager.c:184-194 | Setting an AP ssid and then a 64-byte password as written leaves `ssid_len` at 0, whatever the ssid's length. |
| WifiManager.CheckedApPasswordKeepsSsidLen | main/wifi_manager/wifi_manager.c:184-194 | With the checked write, an AP ssid and then any password without NUL of up to 64 bytes leave `ssid_len` at the ssid's length. The password reads back whole. |
| WifiManager.StrncpyPlain | main/wifi_manager/wifi_manager.c:170 | `strncpy` of a source without NUL copies it unchanged. |
| WifiManager.FieldStringPrefix | main/wifi_manager/wifi_manager.c:168-195 | A field holding s followed by a NUL, or exactly s, reads back as s. |
| WifiManager.Zeros | main/wifi_manager/wifi_manager.c:104-105 | `memset` to 0: n zero bytes. |
| WifiManager.Wifi.constructor | main/wifi_manager/wifi_manager.c:248-265 | Statics start zeroed, with an empty event group and no retries. |
| WifiManager.Wifi.Connect | main/wifi_manager/wifi_manager.c:135-141 | The counter is reset to 0. CONNECTING is set exactly when the connect call returns ESP_OK. The record is the one for that bit state. Nothing else changes. |
| WifiManager.Wifi.Reconnect | main/wifi_manager/wifi_manager.c:143-159 | The result and the new counter are `Retry` of the old ones. The bits stay as they were (the CONNECTING it may set is already set). The record is refreshed only on a granted retry. |
| WifiManager.Wifi.Handle | main/wifi_manager/wifi_manager.c:38-111 | STA_START sets STA_START and STA_STOP clears it. STA_CONNECTED stores the BSSID and ssid, sets CONNECTED, and clears PASSWORD_ERROR and CONNECTING. GOT_IP stores the address and sets CONNECTED and GOT_IP. LOST_IP zeroes the address without clearing GOT_IP. Every other event changes nothing, and the retry bound is kept. |
| WifiManager.Wifi.Disconnected | main/wifi_manager/wifi_manager.c:94-108 | The retry state follows `DisconnectStep`. A refused retry records the retry limit when CONNECTING was set, and the rssi and reason otherwise; it then clears CONNECTING. The ssid, the BSSID, CONNECTED and GOT_IP are always cleared. |
| WifiManager.Wifi.GetSsidBssid | main/wifi_manager/wifi_manager.c:227-239 | Returns the stored BSSID and the first `len` bytes of the stored ssid. |
| WifiManager.Wifi.GetIpInfo | main/wifi_manager/wifi_manager.c:241-246 | Returns the stored address information. |
| WifiManager.Wifi.SetStaBssid | main/wifi_manager/wifi_manager.c:161-166 | Stores the BSSID and sets `bssid_set`, then returns the driver's result. |
| WifiManager.Wifi.SetStaSsid | main/wifi_manager/wifi_manager.c:168-173 | The station credentials become `WithSsid` of the old ones, as written. The password is kept when `len` < 32; with `len` == 32 its first byte becomes 0. The driver's result is returned. |
| WifiManager.Wifi.SetStaPasswd | main/wifi_manager/wifi_manager.c:175-180 | The station credentials become `WithPassword` of the old ones. |
| WifiManager.Wifi.SetApSsid | main/wifi_manager/wifi_manager.c:182-188 | The AP credentials become `WithSsid` of the old ones, as written. The password is kept when `len` < 32; with `len` == 32 its first byte becomes 0. `ssid_len` becomes `len`. |
| WifiManager.Wifi.SetApPasswd | main/wifi_manager/wifi_manager.c:190-195 | The AP configuration becomes `ApWithPassword` of the old one, as written. The password starts with the copied bytes. Below 64 bytes this is `WithPassword`; at 64 bytes `ssid_len` becomes 0. |
| WifiManager.Wifi.SetApMaxConn | main/wifi_manager/wifi_manager.c:197-205 | More than 4 returns INVALID_ARG with the AP configuration unchanged. Otherwise the count is stored as a `uint8_t`. |
| WifiManager.Wifi.SetApAuth | main/wifi_manager/wifi_manager.c:207-215 | A mode at or past `authMax`, the SDK's WIFI_AUTH_MAX, returns INVALID_ARG with the AP configuration unchanged. Otherwise the mode is stored. |
| WifiManager.Wifi.SetApChannel | main/wifi_manager/wifi_manager.c:217-225 | A channel above 13 returns INVALID_ARG with the AP configuration unchanged. Otherwise the channel is stored. |
| SmartConfig.ClearIn | main/wifi_manager/smart_config/smart_config.c:131 | A wait on the in-flags with clear-on-exit clears exactly bits 16 to 23. |
| SmartConfig.ClearOut | main/wifi_manager/smart_config/smart_config.c:189 | A wait on the out-flags with clear-on-exit clears exactly bits 0 to 15. |
| SmartConfig.Countdown | main/wifi_manager/smart_config/smart_config.c:129-152 | A count of 0 or less runs no iteration. Otherwise the loop ends with a remaining count between 0 and the start. |
| SmartConfig.Decode | main/wifi_manager/smart_config/smart_config.c:189-208 | The priority is SUCCESS, then TIMEOUT, then PWD_ERR, then CANCEL. Each outcome holds exactly when its bit is set and no higher one is. With none set, the result is ERR_TIMEOUT. |
| SmartConfig.Verdict | main/wifi_manager/smart_config/smart_config.c:129-157 | The outcome, iteration by iteration: DONE means success, CANCEL0 means not finished, a password error means a password failure, and running out means a timeout. |
| SmartConfig.OutcomeBit | main/wifi_manager/smart_config/smart_config.c:135-156 | Each verdict has its own outcome bit. |
| SmartConfig.OutcomeDecodes | main/wifi_manager/smart_config/smart_config.c:191-206 | A group holding only a verdict's outcome bit decodes back to that verdict, and holds TIMEOUT exactly for a timeout. |
| SmartConfig.CountdownFromClear | main/wifi_manager/smart_config/smart_config.c:129-157 | From a clear group, with only DONE and CANCEL0 set from outside, the task leaves exactly the bit of its verdict. With a negative count it leaves none. |
| SmartConfig.TimeoutIffNoHit | main/wifi_manager/smart_config/smart_config.c:129-157 | The verdict is a timeout exactly when no iteration sees DONE, CANCEL0 or a password error. |
| SmartConfig.TaskOutcome | main/wifi_manager/smart_config/smart_config.c:129-208 | Exactly one outcome bit is left (none for a negative count). TIMEOUT is left exactly when the count started at 0 or more and no iteration ended the loop early. `smart_config_wait` decodes the bit to the verdict. |
| SmartConfig.Half | main/wifi_manager/smart_config/smart_config.c:166-169 | C's truncating halving, for either sign. |
| SmartConfig.HalfOfDouble | main/wifi_manager/smart_config/smart_config.c:54-168 | Right after a start, the remaining time reads back as the timeout given. |
| SmartConfig.Provisioner.constructor | main/wifi_manager/smart_config/smart_config.c:33-34 | No event group yet, no bits, count 0. |
| SmartConfig.Provisioner.Start | main/wifi_manager/smart_config/smart_config.c:36-62 | Before the station starts, WIFI_NOT_INIT is returned with no state change. A failed group creation returns FAIL. Otherwise bits 0 to 23 are cleared, the count becomes 2 x timeout, and FAIL or OK reflects task creation. |
| SmartConfig.Provisioner.Task | main/wifi_manager/smart_config/smart_config.c:129-157 | The count and the group are those `Countdown` gives, plus TIMEOUT when the count reached exactly 0. |
| SmartConfig.Provisioner.GetTimeoutTime | main/wifi_manager/smart_config/smart_config.c:166-169 | Returns `Half` of the remaining count. |
| SmartConfig.Provisioner.Cancel | main/wifi_manager/smart_config/smart_config.c:171-179 | Without a group, returns NOT_SUPPORTED. Otherwise sets CANCEL0 and returns OK. |
| SmartConfig.Provisioner.Wait | main/wifi_manager/smart_config/smart_config.c:181-209 | Without a group, returns NOT_SUPPORTED. Otherwise the outcome bits are taken and cleared, and their decode is returned. |

## Left out

- Sockets and multiplexing (`create_sockte`, `lwip_select`, the send and close calls) are left out. They are foreign: what they report is a parameter, and what is asked of them is recorded.
- `telnet_init`'s task creation, the UART event task's queue and its other event types are left out. So is the lock-free sharing of `client_fds` between two tasks, which is concurrency.
- The peer address is a parameter, because `inet_ntoa_r` is a foreign call.
- TelnetServer.Server.ServiceSlot: the 256-byte receive buffer is passed in already filled.
- `display_init`, `oled_init`, the display task, the flush callbacks and the LVGL tick are I2C, LVGL and timer setup, and are left out.
- Display.SetPx: requires an on-panel pixel, because the callback has no bounds check and LVGL passes only on-panel pixels.
- Oled.SetPx: coordinates must be non-negative. A write the guard lets past the plane (row 32) is reported as `overrun`, not performed, because memory past the plane is not part of the model.
- The older driver's rounder is the same transform as the newer one's, so it is modelled once, as `Display.Rounder`.
- `console_printf`'s mutex and `vsnprintf` formatting, `console_log_output` and `console_repl_init` are left out. The formatted text is a parameter.
- Console.RunCommand: the printed wording is represented by the `Report` kind, not the text.
- NVS open and write results are parameters. A write changes the store exactly when it reports ESP_OK.
- Config: a blob of the wrong size is a single `OtherSize` value. The bytes a short read leaves in the caller's struct are not modelled.
- `conf_set_uart_param` is not modelled as a storing operation. It passes `&uart_config`, the address of its own parameter variable, so what it writes is not a configuration. `set-uart` saves through `nvs_set_blob` with the struct, and that is what `SetUartCmd` models.
- `source_clk` is not a field of the model's `UartConfig`.
- SetUart.BaudWithinTolerance: the double-precision tolerance `|achieved - req| < req * 0.0005` is restated in integers as `2000 * |achieved - req| < req`.
- Stop bits given as a double are an enumeration of inputs: exactly 1, 1.5 or 2, or any other value.
- `wifi_init`, BluFi and the SmartConfig driver's event handler (`smart_config.c` lines 64-117) are left out. They are foreign configuration copies and driver calls.
- WifiManager.Wifi.SetApAuth: WIFI_AUTH_MAX is a parameter, `authMax`. Its value depends on the ESP-IDF release, and the header that defines it is not part of this model.
- WifiManager.Wifi.SetStaPasswd: requires `len` < 64. At 64 the C code writes the terminator one byte past the password field, onto the station's `scan_method`, which is not part of this model. (The AP setter accepts 64: there the byte is `ssid_len`; see Findings.)
- WifiManager.Wifi.SetStaSsid: requires `len` <= 32, because a longer length overruns the ssid field and the password in C.
- WifiManager.Wifi.SetApSsid: requires `len` <= 32, because a longer length overruns the ssid field and the password in C.
- WifiManager.Wifi.SetApPasswd: requires `len` <= 64, because a longer length overruns the password field past `ssid_len` in C.
- TelnetServer.Server.UartData: requires at least one byte. A data event of size 0 would make the C code broadcast the receive buffer up to its first NUL (main/telnet/telnet_server.c:396, 418); the UART driver does not post such events, and that path is not modelled.
- Config.Storage.ConfGetDevName: uses the corrected buffer guard (see Findings); the guard as it is in C is `GetDevName`.
- Blocking waits and their tick timeouts are not modelled. A wait is modelled by the bits it returns with.
- `smart_config.c` line 146 calls `wifi_is_password_error(0)`, but the macro in `wifi_manager.h` line 26 takes no argument. The test is modelled as a boolean input for each iteration.
- SmartConfig.Provisioner.Start: `timeout_time * 2` is not wrapped to 32 bits.
- Task creation is modelled by its reported outcome. The task is run separately, through `Task`.

## Findings

| source | as written | input that shows it | evidently intended | confidence | as-written member | corrected member |
|---|---|---|---|---|---|---|
| main/oled/oled.c:141 | `if (x > LCD_H_RES \|\| y > LCD_V_RES) return;` admits column 128 and row 32 | (x, y) = (128, 0) writes the byte and bit of pixel (0, 8); y = 32 writes past the 512-byte plane | reject `x >= 128 \|\| y >= 32` | high; not executed | Oled.SetPx, Oled.EdgeColumnAliasesNextPage, Oled.BottomRowOverruns | Oled.SetPxChecked, Oled.CheckedPixelsDisjoint |
| main/config/config.c:10 | `if (len < 20)` admits a 20-byte buffer, yet `conf_set_dev_name` stores names of up to 20 characters | store a 20-character name, then read it with `len` = 20: `nvs_get_str` fails with ESP_ERR_NVS_INVALID_LENGTH | require room for 20 characters and the terminator, `len < 21` | medium; not executed | Config.GetDevName, Config.LongestNameUnreadable | Config.GetDevNameChecked, Config.SetThenGetChecked |
| main/wifi_manager/wifi_manager.c:171 (and 185) | `ssid[len] = '\0'` with `len` = 32 writes one byte past the 32-byte ssid field | `wifi_set_sta_ssid` with a 32-byte ssid zeroes `password[0]`, so the stored password reads as empty | write the terminator only when `len` < 32 | high; not executed | WifiManager.WithSsid, WifiManager.FullSsidErasesPassword | WifiManager.WithSsidChecked, WifiManager.CheckedSsidKeepsPassword |
| main/wifi_manager/wifi_manager.c:193 | `password[len] = '\0'` with `len` = 64 writes one byte past the 64-byte AP password field | `wifi_set_ap_passwd` with a 64-byte key after `wifi_set_ap_ssid` sets `ssid_len` to 0 | write the terminator only when `len` < 64 | medium; not executed | WifiManager.ApWithPassword, WifiManager.FullApPasswordClearsSsidLen | WifiManager.ApWithPasswordChecked, WifiManager.CheckedApPasswordKeepsSsidLen |
