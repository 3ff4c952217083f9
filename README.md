# Tick counter, serial log and SysTick setup of a Nucleo-64 STM32F070 libopencm3 firmware

The firmware brings up a 72 MHz PLL clock, USART2 and the PA5 pin. It logs `----start----`, then arms SysTick to interrupt once per second. After that, all of its behaviour happens in `sys_tick_handler`. Every interrupt logs the line `tick`. When the file-scope `unsigned ticks` reads 1000 on entry, the handler also logs `@` and resets the counter. It then increments `ticks` and toggles PA5. Each line goes out through `log_msg`: the bytes of a NUL-terminated string, then `'\n'`, then `'\r'`.

The project models that behaviour in five modules:

- `CTypes` (`ctypes.dfy`): the 32-bit `unsigned` type, and its increment written out with wrap-around.
- `Serial` (`serial.dfy`): the string a C `const char *` denotes (`CStr`) and the bytes a message becomes on the wire (`Frame`, `Frames`). It also has the partner of that framing, a reader that splits a log back into its messages (`TakeLine`, `SplitLines`), with the round trip proved.
- `SysTick` (`systick.dfy`): the reload value `rcc_ahb_frequency / 8 / 1000 * xms`, in C's left-to-right integer division order.
- `TickHandler` (`tick_handler.dfy`): the handler as a step function on a snapshot of its state (`ticks`, the PA5 level, the serial output). Runs of calls from the initial `ticks == 0` get a closed form: the counter cycles 1..1000, `@` fires on calls 1001, 2001, ..., and the whole log reads back as the expected lines.
- `Firmware` (`board.dfy`): class `Board` holds the state that the hardware and the global variable hold. Its methods are the C functions. The serial port is the sequence `tx` that each transmitted byte joins. The PA5 level is a boolean. The SysTick reload register is a number. `log_msg` keeps its `while (*s)` loop over the string.

`ticks` is compared with the literal `1000`, not with `TICKS_PER_SECOND` (main.c:55, 62). The reset comes before the increment, so from its initial 0 `ticks` is in 1..1000 after every call. With one interrupt per second, `@` appears every 1000 seconds.

## Model

| member | source | states |
|---|---|---|
| CTypes.Inc | main.c:68 | the unsigned `ticks++` adds one below 2^32 - 1 and wraps to 0 at 2^32 - 1 |
| Serial.CStr | main.c:19-20 | the string a `const char *` denotes is the prefix of the buffer up to, and not including, its first NUL; it contains no NUL and the next character is NUL |
| Serial.CStrAt | main.c:19 | a pointer that has passed only non-NUL characters and now reads NUL has walked the whole C string |
| Serial.CStrLiteral | main.c:60 | a string literal `"m"` (m followed by NUL) denotes exactly m |
| Serial.TakeLine | main.c:22-23 | a line split off the log has no '\n' and is followed by exactly '\n' '\r' and the rest of the log |
| Serial.TakeLineFrame | main.c:17-24 | for any message without '\n', the line split off `m` '\n' '\r' `rest` is exactly `m`, with `rest` left over |
| Serial.SplitLines | main.c:17-24 | a log that reads back as messages is exactly those messages framed by `log_msg`, none containing '\n' |
| Serial.SplitFrames | main.c:17-24 | round trip: messages without '\n', framed one after another by `log_msg`, read back as exactly those messages in order |
| Serial.FramesAppend | main.c:17-24 | logging two lists of messages one after the other gives the concatenation of their bytes |
| SysTick.Reload | main.c:78-80 | the reload is a multiple of xms (1000), at most AHB/8 and within 1000 of it, so it is AHB/8 rounded down to a whole number of ms-counts times xms; with the 72 MHz clock it is 9000000 |
| TickHandler.Step | main.c:58-70 | one handler call flips PA5 and only appends to the log. On entry with `ticks == 1000` it leaves `ticks == 1`; otherwise it leaves `ticks + 1`, wrapping to 0 from 2^32 - 1; from 0..1000 it lands in 1..1000 |
| TickHandler.StepLines | main.c:60-65 | the bytes one call appends read back as the line "tick", followed by the line "@" exactly when `ticks == 1000` on entry |
| TickHandler.TicksFromReset | main.c:53-68 | from `ticks == 0`, after n calls `ticks` is (n - 1) mod 1000 + 1 (and 0 before any call) |
| TickHandler.Pa5FromStart | main.c:69 | after n calls PA5 differs from its starting level exactly when n is odd |
| TickHandler.TicksBounded | main.c:53-68 | from `ticks == 0`, `ticks` stays within 0..1000, is at least 1 after every call, and the unsigned increment never wraps |
| TickHandler.AtSchedule | main.c:62-66 | from `ticks == 0`, the k-th call logs "@" if and only if k > 1000 and k mod 1000 == 1 (calls 1001, 2001, ...) |
| TickHandler.LogFromReset | main.c:58-70 | from `ticks == 0`, n calls append exactly the framed lines of Messages(n): "tick" per call with "@" after it on calls 1001, 2001, ... |
| TickHandler.LogLines | main.c:58-70 | a log of complete lines still reads back after n calls from reset: its earlier lines, then Messages(n) |
| TickHandler.MessagesNoNewline | main.c:60-64 | no line the handler logs contains '\n', so its log can be read back line by line |
| TickHandler.AtCount | main.c:62-66 | the first n calls from reset log "@" (n - 1) div 1000 times: never in the first 1000 calls, then once per 1000 calls |
| Firmware.Board.constructor | main.c:53 | power-on state: `ticks` is 0, nothing has been sent, the counter invariant holds; the PA5 level and the reload register keep the values they have at reset |
| Firmware.Board.UsartSendBlocking | main.c:20 | sending a byte appends it to the serial output and changes nothing else |
| Firmware.Board.LogMsg | main.c:17-24 | `log_msg(s)` appends the characters of `s` before its NUL, in order, then '\n' then '\r', and nothing else; for the empty string only '\n' '\r' |
| Firmware.Board.GpioToggle | main.c:69 | the PA5 level is inverted |
| Firmware.Board.SysTickHandler | main.c:58-70 | the new `ticks`, PA5 level and serial output are Step of the old ones; it keeps `ticks` within 1..1000 once it is within 0..1000; the reload register is untouched |
| Firmware.Board.SysTickSetup | main.c:73-83 | the reload register receives Reload of the AHB frequency |
| Firmware.Board.Boot | main.c:86-92 | bring-up logs "----start----" and programs the reload to 9000000 for the 72 MHz clock; `ticks` and PA5 are untouched |
| Firmware.Board.HardFaultHandler | main.c:27-31 | the fault handler logs exactly its one diagnostic line and enters the halted state |

## Left out

- The peripheral configuration done through libopencm3 is left out, because its bodies are not part of this model. This covers `uart_setup`, `rcc_clock_setup_pll`, `gpio_mode_setup`, `gpio_set_af`, `systick_set_clocksource`, the write of 0 to `STK_CVR`, and the counter and interrupt enables. `Boot` takes the 72 MHz AHB frequency the selected PLL configuration yields as a constant.
- Firmware.Board.UsartSendBlocking: the blocking wait on USART2's transmit flag is I/O, so only the byte it appends to the output is modelled.
- Firmware.Board.SysTickSetup: the write to the 24-bit reload field inside `systick_set_reload` is not part of this model. The register holds the 32-bit value computed in C; 9000000 fits in 24 bits.
- The wiring of `sys_tick_handler` and `hard_fault_handler` to the interrupt vector, interrupt timing and preemption are hardware concurrency, so they are left out. The model applies one handler call at a time, as the non-reentrant interrupt does.
- Firmware.Board.HardFaultHandler: the endless `while(true)` loop is modelled as the terminal `halted` flag. The model does not prevent later SysTick calls, which on the hardware have lower priority than the fault and are never serviced.
- `main`'s idle `while(true)` loop and its unreachable `return 0` are left out, because they do nothing observable.
- The PA5 level before the first toggle and the SysTick reload register's reset value are parameters of the constructor, because the source does not fix them.
- Firmware.Board.UsartSendBlocking: bytes are modelled as Dafny `char` values, not as the 8 data bits USART2 sends. Every message the firmware logs is an ASCII literal, so the two agree.
