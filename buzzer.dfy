/**
 * The buzzer feedback of a scan. The controller drives the buzzer pin with
 * `digitalWrite` and blocks with `delay`; here that sequence of calls is the
 * output itself, a list of `Write`/`Delay` actions, and `Play` says what the
 * pin does while the list is carried out.
 */
module Buzzer {

  /** One call on the buzzer: drive the pin HIGH/LOW, or wait some milliseconds. */
  datatype Action = Write(high: bool) | Delay(ms: nat)

  const BeepMs: nat := 500
  const PauseMs: nat := 250
  /** Number of passes of the denial loop (ass1.py:53). */
  const DenyBeeps: nat := 2

  /** Authorized card: one beep (ass1.py:46-48). */
  function SuccessPattern(): seq<Action>
  {
    [Write(true), Delay(BeepMs), Write(false)]
  }

  /** One pass of the denial loop (ass1.py:54-57). */
  function DenyCycle(): seq<Action>
  {
    [Write(true), Delay(BeepMs), Write(false), Delay(PauseMs)]
  }

  /** `n` passes of a loop body, in order. */
  function Repeat(cycle: seq<Action>, n: nat): seq<Action>
    decreases n
  {
    if n == 0 then [] else Repeat(cycle, n - 1) + cycle
  }

  /** Unknown card: the denial loop run `DenyBeeps` times (ass1.py:53-58). */
  function DenyPattern(): seq<Action>
  {
    Repeat(DenyCycle(), DenyBeeps)
  }

  /** What carrying out a list of actions does to the pin. */
  datatype Effect = Effect(
    level: bool,   // pin level at the end
    onMs: nat,     // milliseconds spent waiting while the pin is HIGH
    totalMs: nat,  // milliseconds spent waiting in all
    beeps: nat)    // LOW-to-HIGH transitions

  function Play(p: seq<Action>, level: bool): Effect
    decreases |p|
  {
    if |p| == 0 then Effect(level, 0, 0, 0)
    else
      var rest := match p[0]
        case Write(h) => Play(p[1..], h)
        case Delay(_) => Play(p[1..], level);
      match p[0]
      case Write(h) =>
        Effect(rest.level, rest.onMs, rest.totalMs, rest.beeps + (if h && !level then 1 else 0))
      case Delay(ms) =>
        Effect(rest.level, rest.onMs + (if level then ms else 0), rest.totalMs + ms, rest.beeps)
  }

  /** Playing two lists one after the other adds up their effects. */
  lemma {:induction false} PlayConcat(a: seq<Action>, b: seq<Action>, level: bool)
    ensures var ea := Play(a, level);
      var eb := Play(b, ea.level);
      Play(a + b, level) == Effect(eb.level, ea.onMs + eb.onMs, ea.totalMs + eb.totalMs, ea.beeps + eb.beeps)
    decreases |a|
  {
    if |a| == 0 {
      assert a + b == b;
    } else {
      assert (a + b)[0] == a[0];
      assert (a + b)[1..] == a[1..] + b;
      match a[0]
      case Write(h) => PlayConcat(a[1..], b, h);
      case Delay(_) => PlayConcat(a[1..], b, level);
    }
  }

  /**
   * The denial loop run `n` times from a silent buzzer beeps `n` times, 500 ms
   * each, takes 750 ms per pass and leaves the buzzer off.
   */
  lemma {:induction false} DenyLoopEffect(n: nat)
    ensures Play(Repeat(DenyCycle(), n), false) == Effect(false, BeepMs * n, (BeepMs + PauseMs) * n, n)
    decreases n
  {
    if n > 0 {
      DenyLoopEffect(n - 1);
      PlayConcat(Repeat(DenyCycle(), n - 1), DenyCycle(), false);
    }
  }

  /** A denied scan: exactly two 500 ms beeps, 1500 ms in all, buzzer off at the end. */
  lemma DenyPatternEffect()
    ensures Play(DenyPattern(), false) == Effect(false, 1000, 1500, 2)
  {
    DenyLoopEffect(DenyBeeps);
  }

  /** An authorized scan: exactly one 500 ms beep, buzzer off at the end. */
  lemma SuccessPatternEffect()
    ensures Play(SuccessPattern(), false) == Effect(false, 500, 500, 1)
  {
  }
}
