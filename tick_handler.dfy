/**
 * What one `sys_tick_handler` interrupt does to the firmware's state, and what
 * a run of interrupts from the initial `ticks == 0` does.
 */
module TickHandler {
  import opened CTypes
  import opened Serial

  /** The literal `ticks` is compared with (not TICKS_PER_SECOND). */
  const ROLLOVER: u32 := 1000

  const TICK_MSG: seq<char> := "tick"
  const AT_MSG: seq<char> := "@"

  /** The state the handler touches: the `ticks` global, the PA5 output level, the serial log. */
  datatype Snapshot = Snapshot(ticks: u32, pa5: bool, out: seq<char>)

  /** The handler logs "@" and resets the counter exactly when it finds `ticks == 1000`. */
  predicate Fires(s: Snapshot)
  {
    s.ticks == ROLLOVER
  }

  /** One handler call: log "tick", on rollover log "@" and reset, increment, toggle PA5. */
  function Step(s: Snapshot): (r: Snapshot)
    ensures r.pa5 == !s.pa5
    ensures Fires(s) ==> r.ticks == 1
    ensures !Fires(s) && s.ticks < U32_LIMIT - 1 ==> r.ticks == s.ticks + 1
    ensures !Fires(s) && s.ticks == U32_LIMIT - 1 ==> r.ticks == 0
    ensures s.ticks <= ROLLOVER ==> 1 <= r.ticks <= ROLLOVER
    ensures |s.out| < |r.out| && r.out[..|s.out|] == s.out
  {
    var out := s.out + Frame(TICK_MSG) + (if Fires(s) then Frame(AT_MSG) else []);
    var t := if Fires(s) then 0 else s.ticks;
    Snapshot(Inc(t), !s.pa5, out)
  }

  /** One handler call logs the line "tick" and then, only on rollover, the line "@". */
  lemma StepLines(s: Snapshot)
    ensures SplitLines(Step(s).out[|s.out|..]) ==
            Some(if Fires(s) then [TICK_MSG, AT_MSG] else [TICK_MSG])
  {
    var ms := if Fires(s) then [TICK_MSG, AT_MSG] else [TICK_MSG];
    assert Frames(ms) == Step(s).out[|s.out|..] by {
      FramesPair(TICK_MSG, AT_MSG);
      assert Frames([TICK_MSG]) == Frame(TICK_MSG) + Frames([]);
    }
    assert NoNewline(ms) by {
      assert '\n' !in TICK_MSG && '\n' !in AT_MSG;
    }
    SplitFrames(ms);
  }

  lemma FramesPair(a: seq<char>, b: seq<char>)
    ensures Frames([a, b]) == Frame(a) + Frame(b)
  {
    assert [a, b][1..] == [b];
    assert Frames([b]) == Frame(b) + Frames([]);
  }

  /** The state after `n` handler calls starting from `s`. */
  function Run(s: Snapshot, n: nat): Snapshot
  {
    if n == 0 then s else Step(Run(s, n - 1))
  }

  /** Counting up by one, in quotient and remainder by 1000. */
  lemma Succ1000(j: nat)
    ensures (j + 1) % 1000 == if j % 1000 == 999 then 0 else j % 1000 + 1
    ensures (j + 1) / 1000 == j / 1000 + (if j % 1000 == 999 then 1 else 0)
  {
    var q, r := j / 1000, j % 1000;
    if r == 999 {
      assert j + 1 == 1000 * (q + 1);
    } else {
      assert j + 1 == 1000 * q + (r + 1);
    }
  }

  /** From reset, the counter after `n` calls is 1, 2, ..., 1000, 1, 2, ... */
  lemma {:induction false} TicksFromReset(s: Snapshot, n: nat)
    requires s.ticks == 0
    ensures Run(s, n).ticks == if n == 0 then 0 else (n - 1) % 1000 + 1
  {
    if n > 1 {
      TicksFromReset(s, n - 1);
      Succ1000(n - 2);
    }
  }

  /** PA5 has been flipped once per call: after `n` calls it differs from its start level iff n is odd. */
  lemma {:induction false} Pa5FromStart(s: Snapshot, n: nat)
    ensures Run(s, n).pa5 == (s.pa5 != (n % 2 == 1))
  {
    if n > 0 {
      Pa5FromStart(s, n - 1);
    }
  }

  /**
   * From reset, `ticks` never leaves 0..1000, is at least 1 after every call,
   * and the unsigned increment in the handler never wraps around.
   */
  lemma {:induction false} TicksBounded(s: Snapshot, n: nat)
    requires s.ticks == 0
    ensures Run(s, n).ticks <= ROLLOVER
    ensures n >= 1 ==> 1 <= Run(s, n).ticks
    ensures (if Fires(Run(s, n)) then 0 else Run(s, n).ticks) < U32_LIMIT - 1
  {
    TicksFromReset(s, n);
  }

  /** From reset, the `k`-th call logs "@" exactly when k is 1001, 2001, 3001, ... */
  lemma AtSchedule(s: Snapshot, k: nat)
    requires s.ticks == 0 && k >= 1
    ensures Fires(Run(s, k - 1)) <==> k > 1000 && k % 1000 == 1
  {
    TicksFromReset(s, k - 1);
    if k >= 2 {
      Succ1000(k - 2);
    }
  }

  /** The lines the first `n` calls from reset log, by call number. */
  function Messages(n: nat): seq<seq<char>>
  {
    if n == 0 then []
    else Messages(n - 1) + [TICK_MSG] + (if n > 1000 && n % 1000 == 1 then [AT_MSG] else [])
  }

  /** From reset, the log grows by exactly the framed lines of Messages. */
  lemma {:induction false} LogFromReset(s: Snapshot, n: nat)
    requires s.ticks == 0
    ensures Run(s, n).out == s.out + Frames(Messages(n))
  {
    if n > 0 {
      LogFromReset(s, n - 1);
      AtSchedule(s, n);
      var extra := [TICK_MSG] + (if n > 1000 && n % 1000 == 1 then [AT_MSG] else []);
      assert Messages(n) == Messages(n - 1) + extra;
      FramesAppend(Messages(n - 1), extra);
      assert Frames(extra) == Frame(TICK_MSG) + (if n > 1000 && n % 1000 == 1 then Frame(AT_MSG) else []) by {
        FramesPair(TICK_MSG, AT_MSG);
        if n > 1000 && n % 1000 == 1 {
          assert extra == [TICK_MSG, AT_MSG];
        } else {
          assert extra == [TICK_MSG];
          assert Frames(extra) == Frame(TICK_MSG) + Frames([]);
        }
      }
    }
  }

  /**
   * A log made of complete lines stays readable: after `n` calls from reset it
   * reads back as its earlier lines followed by Messages(n).
   */
  lemma LogLines(s: Snapshot, n: nat, before: seq<seq<char>>)
    requires s.ticks == 0 && NoNewline(before) && s.out == Frames(before)
    ensures SplitLines(Run(s, n).out) == Some(before + Messages(n))
  {
    LogFromReset(s, n);
    MessagesNoNewline(n);
    FramesAppend(before, Messages(n));
    assert NoNewline(before + Messages(n)) by {
      forall i | 0 <= i < |before + Messages(n)| ensures '\n' !in (before + Messages(n))[i] {
        if i < |before| {
          assert (before + Messages(n))[i] == before[i];
        } else {
          assert (before + Messages(n))[i] == Messages(n)[i - |before|];
        }
      }
    }
    SplitFrames(before + Messages(n));
  }

  lemma {:induction false} MessagesNoNewline(n: nat)
    ensures NoNewline(Messages(n))
  {
    if n > 0 {
      MessagesNoNewline(n - 1);
      var ms := Messages(n);
      forall i | 0 <= i < |ms| ensures '\n' !in ms[i] {
        if i < |Messages(n - 1)| {
          assert ms[i] == Messages(n - 1)[i];
        } else {
          assert ms[i] == TICK_MSG || ms[i] == AT_MSG;
        }
      }
    }
  }

  /** Number of "@" lines in a list of messages. */
  function CountAt(ms: seq<seq<char>>): nat
  {
    if ms == [] then 0 else (if ms[0] == AT_MSG then 1 else 0) + CountAt(ms[1..])
  }

  lemma {:induction false} CountAtAppend(a: seq<seq<char>>, b: seq<seq<char>>)
    ensures CountAt(a + b) == CountAt(a) + CountAt(b)
  {
    if a == [] {
      assert a + b == b;
    } else {
      assert (a + b)[1..] == a[1..] + b;
      CountAtAppend(a[1..], b);
    }
  }

  /** The first `n` calls from reset log "@" (n - 1) / 1000 times: none in the first 1000 calls, then one per 1000. */
  lemma {:induction false} AtCount(n: nat)
    ensures CountAt(Messages(n)) == if n == 0 then 0 else (n - 1) / 1000
  {
    if n > 0 {
      AtCount(n - 1);
      var fires := n > 1000 && n % 1000 == 1;
      var extra := [TICK_MSG] + (if fires then [AT_MSG] else []);
      assert Messages(n) == Messages(n - 1) + extra;
      CountAtAppend(Messages(n - 1), extra);
      assert TICK_MSG != AT_MSG;
      assert CountAt(extra) == if fires then 1 else 0 by {
        assert extra[1..] == if fires then [AT_MSG] else [];
        if fires {
          assert CountAt([AT_MSG]) == 1;
        }
      }
      if n > 1 {
        Succ1000(n - 2);
      }
    }
  }
}
