/**
 * The serial log line written after every scan (ass1.py:61-64): the three
 * `Serial.print` calls and the closing `Serial.println` produce
 * `LOG:<uid>,<status>` followed by the CR LF that `println` appends.
 * `ParseLog` reads such a line back, as a host reading the port would.
 */
module SerialLog {
  import opened Wrappers
  import opened UidFormat

  /** Outcome of a scan as it is written in the log. */
  datatype Status = Locked | Unlocked | Denied

  function StatusText(s: Status): string
  {
    match s
    case Locked => "LOCKED"
    case Unlocked => "UNLOCKED"
    case Denied => "DENIED"
  }

  const Prefix: string := "LOG:"
  const Separator: char := ','
  const LineEnd: string := "\r\n"

  /** The characters written to the serial port for one scan. */
  function LogLine(uid: string, status: Status): string
  {
    Prefix + uid + [Separator] + StatusText(status) + LineEnd
  }

  /** A log line read back. */
  datatype Entry = Entry(uid: string, status: Status)

  function ParseStatus(t: string): (r: Option<Status>)
  {
    if t == "LOCKED" then Some(Locked)
    else if t == "UNLOCKED" then Some(Unlocked)
    else if t == "DENIED" then Some(Denied)
    else None
  }

  /**
   * Strips `LOG:` and the line end, splits at the first comma and reads the
   * status after it; `None` for anything not in that form.
   */
  function ParseLog(line: string): (r: Option<Entry>)
  {
    if |line| < |Prefix| + |LineEnd| || line[..|Prefix|] != Prefix || line[|line| - |LineEnd|..] != LineEnd then
      None
    else
      var body := line[|Prefix|..|line| - |LineEnd|];
      match IndexOf(body, Separator)
      case None => None
      case Some(i) =>
        match ParseStatus(body[i + 1..])
        case None => None
        case Some(st) => Some(Entry(body[..i], st))
  }

  /** The three status words are told apart by the parser. */
  lemma ParseStatusText(s: Status)
    ensures ParseStatus(StatusText(s)) == Some(s)
  {
  }

  lemma StatusTextParsed(t: string, s: Status)
    requires ParseStatus(t) == Some(s)
    ensures t == StatusText(s)
  {
  }

  /** A line whose UID has no comma reads back as exactly its UID and status. */
  lemma ParseLogRoundTrip(uid: string, status: Status)
    requires Separator !in uid
    ensures ParseLog(LogLine(uid, status)) == Some(Entry(uid, status))
  {
    var line := LogLine(uid, status);
    var tail := StatusText(status);
    var body := uid + [Separator] + tail;
    assert line == Prefix + body + LineEnd;
    assert line[..|Prefix|] == Prefix;
    assert line[|line| - |LineEnd|..] == LineEnd;
    assert line[|Prefix|..|line| - |LineEnd|] == body;
    IndexOfAfter(uid, Separator, tail);
    assert body[..|uid|] == uid;
    assert body[|uid| + 1..] == tail;
    ParseStatusText(status);
  }

  /** Whatever the parser accepts is exactly the line written for what it returns. */
  lemma ParseLogExact(line: string, e: Entry)
    requires ParseLog(line) == Some(e)
    ensures Separator !in e.uid
    ensures line == LogLine(e.uid, e.status)
  {
    var body := line[|Prefix|..|line| - |LineEnd|];
    var i := IndexOf(body, Separator).value;
    StatusTextParsed(body[i + 1..], e.status);
    assert body == body[..i] + [Separator] + body[i + 1..];
    assert line == line[..|Prefix|] + body + line[|line| - |LineEnd|..];
  }

  /**
   * The line written for a card reads back as that card's UID text and the
   * status, and the UID text reads back as the card's bytes.
   */
  lemma ScanLogRoundTrip(bytes: seq<byte>, status: Status)
    ensures ParseLog(LogLine(FormatUid(bytes), status)) == Some(Entry(FormatUid(bytes), status))
    ensures ParseUid(FormatUid(bytes)) == Some(bytes)
  {
    UidAlphabet(bytes);
    ParseLogRoundTrip(FormatUid(bytes), status);
    ParseFormatUid(bytes);
  }
}
