/**
 * The lock controller of ass1.py: one global lock flag, a servo that holds
 * the bolt, and `loop()`, which on each card read formats the UID, compares
 * it with the one master UID, toggles the lock on a match, sounds the buzzer
 * and writes a log line.
 *
 * Hardware calls are outputs: the angle passed to `servo.write`, the list of
 * buzzer actions, and the characters written to the serial port.
 */
module Lock {
  import opened Wrappers
  import opened UidFormat
  import opened Buzzer
  import opened SerialLog

  /** The one authorized card (ass1.py:13). */
  const MASTER_UID: string := "73 C9 2D 20"
  /** The UID bytes of the card whose text is `MASTER_UID`. */
  const MasterBytes: seq<byte> := [0x73, 0xC9, 0x2D, 0x20]

  const LockedAngle: int := 70
  const UnlockedAngle: int := 160

  /** Servo position for a lock state (ass1.py:22, ass1.py:43). */
  function AngleFor(locked: bool): (a: int)
  {
    if locked then LockedAngle else UnlockedAngle
  }

  /** What one scan decides, given the lock state before it and the card's UID text. */
  datatype Outcome = Outcome(
    isLocked: bool,       // lock state after the scan
    status: Status,       // word written to the log
    servo: Option<int>,   // angle passed to servo.write, if it is called
    buzzer: seq<Action>)  // buzzer calls, in order

  /** The decision of ass1.py:40-59. */
  function Decide(isLocked: bool, uid: string): (o: Outcome)
    ensures o.isLocked != isLocked <==> uid == MASTER_UID
    ensures o.status == Denied <==> uid != MASTER_UID
    ensures o.status != Denied ==> (o.status == Locked <==> o.isLocked)
    ensures o.servo.Some? <==> uid == MASTER_UID
    ensures o.servo.Some? ==> o.servo.value == AngleFor(o.isLocked)
    ensures o.buzzer == if uid == MASTER_UID then SuccessPattern() else DenyPattern()
  {
    if uid == MASTER_UID then
      var locked := !isLocked;
      Outcome(locked, if locked then Locked else Unlocked, Some(AngleFor(locked)), SuccessPattern())
    else
      Outcome(isLocked, Denied, None, DenyPattern())
  }

  /** Everything a scan sends to the outside world. */
  datatype Report = Report(
    uid: string,
    status: Status,
    servo: Option<int>,
    buzzer: seq<Action>,
    line: string)

  /** The report of a scan of `bytes` when the lock state before it is `isLocked`. */
  function Expected(isLocked: bool, bytes: seq<byte>): Report
  {
    var uid := FormatUid(bytes);
    var o := Decide(isLocked, uid);
    Report(uid, o.status, o.servo, o.buzzer, LogLine(uid, o.status))
  }

  /** Lock state after a scan of `bytes`. */
  function NextLocked(isLocked: bool, bytes: seq<byte>): bool
  {
    Decide(isLocked, FormatUid(bytes)).isLocked
  }

  class Controller {
    /** The global `isLocked` (ass1.py:14). */
    var isLocked: bool
    /** The angle last written to the servo. */
    var servoAngle: int

    /** The servo always holds the bolt where the lock state says. */
    ghost predicate Valid()
      reads this
    {
      servoAngle == AngleFor(isLocked)
    }

    /** Start-up: locked, servo at the locked position (ass1.py:14, ass1.py:22). */
    constructor ()
      ensures Valid()
      ensures isLocked && servoAngle == LockedAngle
    {
      isLocked := true;
      servoAngle := LockedAngle;
    }

    /** One pass of `loop()` after a card has been read (ass1.py:31-64). */
    method Scan(bytes: seq<byte>) returns (r: Report)
      requires Valid()
      modifies this
      ensures Valid()
      ensures r == Expected(old(isLocked), bytes)
      ensures isLocked == NextLocked(old(isLocked), bytes)
    {
      var uid := BuildUid(bytes);
      var status: Status;
      var servo: Option<int> := None;
      var buzzer: seq<Action> := [];
      if uid == MASTER_UID {
        isLocked := !isLocked;
        status := if isLocked then Locked else Unlocked;
        servoAngle := if isLocked then LockedAngle else UnlockedAngle;
        servo := Some(servoAngle);
        buzzer := buzzer + [Write(true), Delay(BeepMs), Write(false)];
      } else {
        status := Denied;
        var i := 0;
        while i < DenyBeeps
          invariant 0 <= i <= DenyBeeps
          invariant buzzer == Repeat(DenyCycle(), i)
        {
          buzzer := buzzer + [Write(true), Delay(BeepMs), Write(false), Delay(PauseMs)];
          i := i + 1;
        }
      }
      var line := Prefix + uid + [Separator] + StatusText(status) + LineEnd;
      r := Report(uid, status, servo, buzzer, line);
    }

    /**
     * One call of `loop()`: with no new card, or one whose serial could not be
     * read, it returns at once; otherwise it scans (ass1.py:27-64).
     */
    method Loop(cardPresent: bool, serialRead: bool, bytes: seq<byte>) returns (r: Option<Report>)
      requires Valid()
      modifies this
      ensures Valid()
      ensures !(cardPresent && serialRead) ==> r == None && isLocked == old(isLocked) && servoAngle == old(servoAngle)
      ensures cardPresent && serialRead ==>
        r == Some(Expected(old(isLocked), bytes)) && isLocked == NextLocked(old(isLocked), bytes)
    {
      if !cardPresent || !serialRead {
        return None;
      }
      var report := Scan(bytes);
      r := Some(report);
    }
  }

  // ---------------------------------------------------------------------------
  // Properties over scans
  // ---------------------------------------------------------------------------

  /** Only the card with bytes 73 C9 2D 20 is authorized. */
  lemma MasterCard(bytes: seq<byte>)
    ensures FormatUid(bytes) == MASTER_UID <==> bytes == MasterBytes
  {
    MasterText();
    if FormatUid(bytes) == MASTER_UID {
      FormatUidInjective(bytes, MasterBytes);
    }
  }

  lemma MasterText()
    ensures FormatUid(MasterBytes) == MASTER_UID
  {
    FormatUidAsFields(MasterBytes);
    assert UpperByteText(0x73) == "73";
    assert UpperByteText(0xC9) == "C9";
    assert UpperByteText(0x2D) == "2D";
    assert UpperByteText(0x20) == "20";
    assert UpperByteTexts(MasterBytes) == ["73", "C9", "2D", "20"];
  }

  /**
   * Scanning the same card twice in a row brings the lock back to where it
   * was: the master card toggles it twice, any other card never moves it.
   */
  lemma DoubleToggle(isLocked: bool, bytes: seq<byte>)
    ensures NextLocked(NextLocked(isLocked, bytes), bytes) == isLocked
  {
  }

  /** A pass of `loop()`: whether a new card was seen and read, and its UID bytes. */
  datatype Poll = Poll(cardPresent: bool, serialRead: bool, bytes: seq<byte>)

  predicate Authorized(p: Poll)
  {
    p.cardPresent && p.serialRead && FormatUid(p.bytes) == MASTER_UID
  }

  /** Lock state after a run of passes of `loop()`. */
  function LockedAfter(isLocked: bool, polls: seq<Poll>): bool
    decreases |polls|
  {
    if |polls| == 0 then isLocked
    else
      var p := polls[0];
      LockedAfter(if p.cardPresent && p.serialRead then NextLocked(isLocked, p.bytes) else isLocked, polls[1..])
  }

  function CountAuthorized(polls: seq<Poll>): nat
    decreases |polls|
  {
    if |polls| == 0 then 0
    else (if Authorized(polls[0]) then 1 else 0) + CountAuthorized(polls[1..])
  }

  /**
   * Over any run of `loop()`, the lock ends in its starting state exactly
   * when the master card was read an even number of times: denied scans and
   * passes without a card never move it.
   */
  lemma {:induction false} LockParity(isLocked: bool, polls: seq<Poll>)
    ensures LockedAfter(isLocked, polls) == (if CountAuthorized(polls) % 2 == 0 then isLocked else !isLocked)
    decreases |polls|
  {
    if |polls| > 0 {
      var p := polls[0];
      var next := if p.cardPresent && p.serialRead then NextLocked(isLocked, p.bytes) else isLocked;
      LockParity(next, polls[1..]);
    }
  }
}
