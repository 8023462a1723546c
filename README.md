# RFID lock controller — Dafny model

This project models the Arduino sketch `ass1.py`. Despite its name, the file is C++ for an Arduino. The sketch drives a door lock from an MFRC522 card reader. On each pass of `loop()` that reads a card, it does four things:

1. It renders the card's UID bytes as upper-case hexadecimal text, with one space between bytes.
2. It compares that text with the single hard-coded master UID `73 C9 2D 20`.
3. On a match, it toggles the global `isLocked` flag and moves the servo: 70° when locked, 160° when unlocked. It then beeps once. On a mismatch, it beeps twice.
4. It writes `LOG:<uid>,<status>` to the serial port, where the status is `LOCKED`, `UNLOCKED` or `DENIED`.

Hardware calls are modelled as outputs:
- the angle passed to `servo.write`;
- the sequence of `digitalWrite`/`delay` calls on the buzzer;
- the characters written to the serial port.

Modules:

- `Wrappers` (wrappers.dfy): the `Option` datatype.
- `UidFormat` (uid_format.dfy): the UID text.
  - `FormatUid` is its specification. `BuildUid` is the loop of the sketch, proved equal to it.
  - `ParseUid` is its inverse. It is used to show that the text loses nothing: different cards never share a text.
- `Buzzer` (buzzer.dfy): the two buzzer patterns, as lists of `Write`/`Delay` actions.
  - `Play` says what the pin does while a pattern runs: the final level, the time spent HIGH, the total delay and the number of beeps.
- `SerialLog` (log_line.dfy): the log line, including the CR LF that `Serial.println` appends, and its parser `ParseLog`.
- `Lock` (lock.dfy): the controller.
  - `Decide` is the decision on one scan.
  - The `Controller` class holds `isLocked` and the servo angle. It has the constructor (`setup()`), `Scan` (the body of `loop()` after a card is read) and `Loop` (one whole call of `loop()`).
  - `LockedAfter` runs any sequence of passes, and its lemma gives the lock state after such a run.

## Model

| member | source | states |
|---|---|---|
| `UidFormat.BuildUid` | ass1.py:31-37 | The loop that appends each byte's `String(b, HEX)` and a space after every byte but the last, then upper-cases the text, returns exactly `FormatUid(bytes)`. |
| `UidFormat.UpperByteTextShape` | ass1.py:33-37 | A byte is rendered as one upper-case hex digit below 0x10 and two otherwise. It is never zero-padded, and it starts with `0` only for the byte 0. The digits read back as the byte's value. |
| `UidFormat.UidSeparators` | ass1.py:31-37 | A UID of n > 0 bytes gives a text with exactly n-1 spaces, none leading or trailing. Cutting the text at its spaces gives the byte renderings in order. |
| `UidFormat.UidAlphabet` | ass1.py:31-37 | The UID text holds only `0`-`9`, `A`-`F` and space. In particular it holds no comma. |
| `UidFormat.ParseFormatUid` | ass1.py:31-37 | Reading the UID text back gives exactly the card's bytes. This holds for every byte sequence, including the empty one. |
| `UidFormat.FormatParseUid` | ass1.py:31-37 | Every text the UID parser accepts is exactly the UID text of the bytes it returns. With `ParseFormatUid`, the format and the parser are inverse bijections. |
| `UidFormat.FormatUidInjective` | ass1.py:31-37 | Two byte sequences with the same UID text are equal. |
| `UidFormat.SplitJoin` | ass1.py:34-35 | Fields joined with single spaces split back into the same fields. |
| `Buzzer.SuccessPatternEffect` | ass1.py:45-48 | Starting from a silent buzzer, the success pattern gives exactly one beep of 500 ms and leaves the buzzer LOW. |
| `Buzzer.DenyLoopEffect` | ass1.py:53-58 | n passes of the denial loop give n beeps of 500 ms each and 750 ms per pass, and leave the buzzer LOW. |
| `Buzzer.DenyPatternEffect` | ass1.py:52-58 | A denial gives exactly two 500 ms beeps, 1500 ms of delay in all, and leaves the buzzer LOW. |
| `SerialLog.ParseStatusText` | ass1.py:42-50 | The three status words `LOCKED`, `UNLOCKED` and `DENIED` parse back to their own status. |
| `SerialLog.ParseLogRoundTrip` | ass1.py:61-64 | If the UID has no comma, stripping `LOG:` and the line end from the line and splitting at the first comma recovers exactly the UID and the status. |
| `SerialLog.ParseLogExact` | ass1.py:61-64 | Every line the parser accepts is exactly the line written for the entry it returns, and that entry's UID has no comma. |
| `SerialLog.ScanLogRoundTrip` | ass1.py:31-64 | The line written for any card reads back as that card's UID text and status, and the UID text reads back as the card's bytes. |
| `Lock.Decide` | ass1.py:40-59 | A scan toggles the lock if and only if the UID text equals `MASTER_UID`, and only then writes the servo. The written angle is 70 when the new state is locked and 160 otherwise. After an authorized scan the status is `LOCKED` if and only if the lock is now locked. Otherwise the status is `DENIED` and the lock is unchanged. The buzzer pattern is the success pattern on a match and the denial pattern on a mismatch. |
| `Lock.Controller.constructor` | ass1.py:14-22 | The controller starts locked, with the servo at 70°. |
| `Lock.Controller.Scan` | ass1.py:31-64 | One scan returns the UID text, status, servo write, buzzer actions and log line that the specification gives for the old lock state. It sets `isLocked` to the new state and keeps the servo angle in agreement with it. |
| `Lock.Controller.Loop` | ass1.py:27-64 | If no new card is present, or its serial cannot be read, there is no output and nothing changes. Otherwise the pass is exactly `Scan`. |
| `Lock.MasterText` | ass1.py:13 | The bytes 73 C9 2D 20 render as the text `MASTER_UID`. |
| `Lock.MasterCard` | ass1.py:13-40 | A card is authorized if and only if its UID bytes are exactly 0x73 0xC9 0x2D 0x20. |
| `Lock.DoubleToggle` | ass1.py:40-50 | Scanning the same card twice in a row returns the lock to its original state. The master card toggles it twice, and any other card never moves it. |
| `Lock.LockParity` | ass1.py:27-41 | Over any run of `loop()`, the lock ends in its starting state exactly when the master card was read an even number of times. Denied scans and passes without a card never move it. |

## Left out

- database.py is not part of this model. It reads one serial line and inserts it into MySQL, which is I/O against external libraries. `ParseLog` stands in for a host reading the line.
- The SPI, MFRC522 and Servo drivers and the pin setup are not modelled. This covers `SPI.begin`, `PCD_Init`, `servo.attach`, `pinMode` and the pin numbers. Card detection and the serial read become the booleans passed to `Loop`, and the UID bytes a parameter.
- `PICC_HaltA` (ass1.py:66) is not modelled. It only tells the card to stop answering.
- Elapsed time is not modelled. Buzzer delays appear only as numbers inside the pattern. The anti-rescan `delay(1000)` at ass1.py:67 and the start-up `delay(1000)` at ass1.py:23 are left out.
- The `Serial.begin` call and the start-up banner (ass1.py:17, 24) are left out. They produce no state.
- Memory exhaustion inside Arduino `String` concatenation is not modelled. The model's strings never fail to grow.
- `UidFormat.BuildUid`: the source's loop counter is a `byte`. The model uses an unbounded index. This changes nothing, because the reader's UID length is itself a byte, so the counter never wraps.
- Several features described for other variants of this device are absent from this sketch, so they are not modelled:
  - a failed-scan counter with a restart;
  - a pressure-sensor watchdog;
  - the 'F'/'S' host alert commands;
  - an allow-list of several UIDs;
  - case-insensitive comparison;
  - timestamps in log lines.

  The model follows the code: an exact comparison of the upper-cased text with one master UID.
