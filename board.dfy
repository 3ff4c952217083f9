/**
 * The firmware's mutable state and its entry points: `log_msg`,
 * `sys_tick_handler`, `systick_setup`, `hard_fault_handler` and the bring-up
 * part of `main`. Hardware is replaced by the fields it would hold.
 */
module Firmware {
  import opened CTypes
  import opened Serial
  import opened SysTick
  import opened TickHandler

  const START_MSG: seq<char> := "----start----"
  const CRASH_MSG: seq<char> := "----big fat libopencm3 crash -----"

  class Board {
    /** Every character USART2 has accepted for transmission, oldest first. */
    var tx: seq<char>
    /** The file-scope `static unsigned ticks`. */
    var ticks: u32
    /** The output level of GPIOA pin 5. */
    var pa5: bool
    /** The SysTick reload register. */
    var reload: u32
    /** Set once the fault handler has entered its endless loop. */
    var halted: bool

    /** The invariant `ticks` keeps from its initial value on: it never exceeds the rollover literal. */
    ghost predicate Valid()
      reads this
    {
      ticks <= ROLLOVER
    }

    /** The part of the state one SysTick interrupt touches. */
    ghost function Snap(): Snapshot
      reads this
    {
      Snapshot(ticks, pa5, tx)
    }

    /**
     * Power-on state: `ticks` starts at 0 and nothing has been sent yet. The
     * PA5 level before the first toggle and the reload register's reset value
     * are not fixed by the source, so they are parameters.
     */
    constructor (pa5Level: bool, reloadAtReset: u32)
      ensures Valid()
      ensures tx == [] && ticks == 0 && pa5 == pa5Level && reload == reloadAtReset && !halted
    {
      tx, ticks, pa5, reload, halted := [], 0, pa5Level, reloadAtReset, false;
    }

    /** `usart_send_blocking`: the byte joins the output; the wait for the transmitter is not modelled. */
    method UsartSendBlocking(c: char)
      modifies this`tx
      ensures tx == old(tx) + [c]
    {
      tx := tx + [c];
    }

    /** `log_msg`: the characters of the C string `s`, up to its NUL, then '\n' and '\r'. */
    method LogMsg(s: seq<char>)
      requires NUL in s
      modifies this`tx
      ensures tx == old(tx) + Frame(CStr(s))
      ensures s[0] == NUL ==> tx == old(tx) + ['\n', '\r']
    {
      var i := 0;
      while s[i] != NUL
        invariant 0 <= i < |s|
        invariant NUL !in s[..i]
        invariant NUL in s[i..]
        invariant tx == old(tx) + s[..i]
        decreases |s| - i
      {
        UsartSendBlocking(s[i]);
        assert s[..i + 1] == s[..i] + [s[i]];
        i := i + 1;
      }
      CStrAt(s, i);
      UsartSendBlocking('\n');
      UsartSendBlocking('\r');
    }

    /** `gpio_toggle(GPIOA, GPIO5)`. */
    method GpioToggle()
      modifies this`pa5
      ensures pa5 == !old(pa5)
    {
      pa5 := !pa5;
    }

    /** `sys_tick_handler`: one step of the tick state machine. */
    method SysTickHandler()
      modifies this`tx, this`ticks, this`pa5
      ensures Snap() == Step(old(Snap()))
      ensures old(Valid()) ==> Valid() && 1 <= ticks
      ensures reload == old(reload) && halted == old(halted)
    {
      CStrLiteral(TICK_MSG);
      LogMsg(TICK_MSG + [NUL]);
      if ticks == ROLLOVER {
        CStrLiteral(AT_MSG);
        LogMsg(AT_MSG + [NUL]);
        ticks := 0;
      }
      ticks := Inc(ticks);
      GpioToggle();
    }

    /** `systick_setup`: the reload register receives the value Reload computes from the AHB clock. */
    method SysTickSetup(ahbFrequency: u32)
      modifies this`reload
      ensures reload == Reload(ahbFrequency)
    {
      reload := Reload(ahbFrequency);
    }

    /** `main` up to its idle loop, with the PLL configured for a 72 MHz AHB clock. */
    method Boot()
      modifies this`tx, this`reload
      ensures tx == old(tx) + Frame(START_MSG)
      ensures reload == 9_000_000
      ensures ticks == old(ticks) && pa5 == old(pa5) && halted == old(halted)
    {
      CStrLiteral(START_MSG);
      LogMsg(START_MSG + [NUL]);
      SysTickSetup(AHB_72MHZ);
    }

    /** `hard_fault_handler`: one diagnostic line, then the processor spins forever. */
    method HardFaultHandler()
      modifies this`tx, this`halted
      ensures tx == old(tx) + Frame(CRASH_MSG)
      ensures halted
    {
      CStrLiteral(CRASH_MSG);
      LogMsg(CRASH_MSG + [NUL]);
      halted := true;
    }
  }
}
