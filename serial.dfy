/**
 * The serial log written by `log_msg` over USART2: each message goes out byte by
 * byte, followed by '\n' and '\r'. The functions here say what a C string
 * denotes, what bytes a sequence of messages becomes on the wire, and how the
 * wire bytes are split back into messages.
 */
module Serial {
  datatype Option<T> = None | Some(value: T)

  /** The terminator of a C string. */
  const NUL: char := '\0'

  /** The two bytes `log_msg` sends after every message. */
  const EOL: seq<char> := ['\n', '\r']

  /**
   * The string a `const char *` pointing at `buf[0]` denotes: every character
   * before the first NUL. The caller must hand over a terminated string.
   */
  function CStr(buf: seq<char>): (r: seq<char>)
    requires NUL in buf
    ensures NUL !in r
    ensures |r| < |buf| && buf[..|r|] == r && buf[|r|] == NUL
  {
    if buf[0] == NUL then [] else [buf[0]] + CStr(buf[1..])
  }

  /** A pointer that has walked past only non-NUL characters and now sees a NUL has read the whole string. */
  lemma CStrAt(buf: seq<char>, i: nat)
    requires i < |buf| && NUL !in buf[..i] && buf[i] == NUL
    ensures CStr(buf) == buf[..i]
  {
  }

  /** A C string literal `"m"` is stored as `m` followed by NUL and denotes `m`. */
  lemma CStrLiteral(m: seq<char>)
    requires NUL !in m
    ensures CStr(m + [NUL]) == m
  {
  }

  /** The wire bytes of one logged message. */
  function Frame(m: seq<char>): seq<char>
  {
    m + EOL
  }

  /** The wire bytes of several messages logged one after another. */
  function Frames(ms: seq<seq<char>>): seq<char>
  {
    if ms == [] then [] else Frame(ms[0]) + Frames(ms[1..])
  }

  /** Messages that can be told apart on the wire: none contains '\n'. */
  predicate NoNewline(ms: seq<seq<char>>)
  {
    forall i :: 0 <= i < |ms| ==> '\n' !in ms[i]
  }

  lemma {:induction false} FramesAppend(a: seq<seq<char>>, b: seq<seq<char>>)
    ensures Frames(a + b) == Frames(a) + Frames(b)
  {
    if a == [] {
      assert a + b == b;
    } else {
      assert (a + b)[1..] == a[1..] + b;
      FramesAppend(a[1..], b);
    }
  }

  /**
   * Splits the first line off a log: the characters before the first '\n',
   * which must be followed by '\r'; None when the log does not start with a
   * complete line.
   */
  function TakeLine(out: seq<char>): (r: Option<(seq<char>, seq<char>)>)
    ensures r.Some? ==> '\n' !in r.value.0 && out == r.value.0 + EOL + r.value.1
    decreases |out|
  {
    if |out| == 0 then None
    else if out[0] == '\n' then
      (if |out| >= 2 && out[1] == '\r' then Some(([], out[2..])) else None)
    else
      match TakeLine(out[1..])
      case None => None
      case Some((m, rest)) => Some(([out[0]] + m, rest))
  }

  /** TakeLine finds every complete first line. */
  lemma {:induction false} TakeLineFrame(m: seq<char>, rest: seq<char>)
    requires '\n' !in m
    ensures TakeLine(m + EOL + rest) == Some((m, rest))
  {
    var out := m + EOL + rest;
    if m == [] {
      assert out == ['\n', '\r'] + rest;
      assert out[2..] == rest;
    } else {
      assert out[1..] == m[1..] + EOL + rest;
      TakeLineFrame(m[1..], rest);
      assert [out[0]] + m[1..] == m;
    }
  }

  /** Reads a whole log back as the messages it carries; None if it is not a series of complete lines. */
  function SplitLines(out: seq<char>): (r: Option<seq<seq<char>>>)
    ensures r.Some? ==> NoNewline(r.value) && Frames(r.value) == out
    decreases |out|
  {
    if out == [] then Some([])
    else
      match TakeLine(out)
      case None => None
      case Some((m, rest)) =>
        match SplitLines(rest)
        case None => None
        case Some(ms) =>
          assert ([m] + ms)[1..] == ms;
          Some([m] + ms)
  }

  /** Round trip: the messages of a log are read back exactly, in order. */
  lemma {:induction false} SplitFrames(ms: seq<seq<char>>)
    requires NoNewline(ms)
    ensures SplitLines(Frames(ms)) == Some(ms)
  {
    if ms != [] {
      assert NoNewline(ms[1..]) by {
        forall i | 0 <= i < |ms[1..]| ensures '\n' !in ms[1..][i] {
          assert ms[1..][i] == ms[i + 1];
        }
      }
      SplitFrames(ms[1..]);
      assert Frames(ms) == ms[0] + EOL + Frames(ms[1..]);
      TakeLineFrame(ms[0], Frames(ms[1..]));
      assert [ms[0]] + ms[1..] == ms;
    }
  }
}
