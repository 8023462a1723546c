/**
 * How the lock controller turns the UID bytes read from a card into the text
 * it compares with the master UID and writes to the log: every byte is
 * rendered as Arduino's `String(b, HEX)` does it (lower-case hexadecimal, no
 * zero padding), the renderings are joined with single spaces, and the whole
 * string is then upper-cased.
 *
 * `ParseUid` is the inverse of that format, used to show that it loses
 * nothing: two different cards never produce the same text.
 */
module UidFormat {
  import opened Wrappers

  /** One UID byte as the reader delivers it (`uidByte[i]`). */
  newtype byte = b: int | 0 <= b < 256

  const Space: char := ' '

  /** Lower-case digit for a value below 16, as `utoa` writes it. */
  function LowerDigit(d: nat): (c: char)
    requires d < 16
  {
    if d < 10 then '0' + d as char else 'a' + (d - 10) as char
  }

  /** Base-16 rendering of a number without leading zeros (`utoa(n, buf, 16)`). */
  function LowerHex(n: nat): (s: string)
    decreases n
  {
    if n < 16 then [LowerDigit(n)] else LowerHex(n / 16) + [LowerDigit(n % 16)]
  }

  /** `String(b, HEX)` for one UID byte. */
  function ByteText(b: byte): string
  {
    LowerHex(b as nat)
  }

  /** C `toupper` in the default locale: only `a`..`z` change. */
  function UpperChar(c: char): (u: char)
  {
    if 'a' <= c <= 'z' then c - 'a' + 'A' else c
  }

  /** `String::toUpperCase`, applied character by character. */
  function ToUpper(s: string): (r: string)
  {
    seq(|s|, i requires 0 <= i < |s| => UpperChar(s[i]))
  }

  /** Parts separated by exactly one space each, none before the first or after the last. */
  function Join(parts: seq<string>): string
    decreases |parts|
  {
    if |parts| == 0 then ""
    else if |parts| == 1 then parts[0]
    else parts[0] + [Space] + Join(parts[1..])
  }

  /** The lower-case renderings of the bytes, in order. */
  function ByteTexts(bytes: seq<byte>): (r: seq<string>)
    ensures |r| == |bytes|
    ensures forall i :: 0 <= i < |bytes| ==> r[i] == ByteText(bytes[i])
  {
    seq(|bytes|, i requires 0 <= i < |bytes| => ByteText(bytes[i]))
  }

  /** The UID text of a card (ass1.py:31-37). */
  function FormatUid(bytes: seq<byte>): string
  {
    ToUpper(Join(ByteTexts(bytes)))
  }

  /** The upper-case rendering of one byte, as it appears inside the UID text. */
  function UpperByteText(b: byte): string
  {
    ToUpper(ByteText(b))
  }

  predicate IsUpperHexDigit(c: char)
  {
    '0' <= c <= '9' || 'A' <= c <= 'F'
  }

  function DigitValue(c: char): (d: nat)
    requires IsUpperHexDigit(c)
    ensures d < 16
  {
    if '0' <= c <= '9' then (c - '0') as nat else (c - 'A') as nat + 10
  }

  // ---------------------------------------------------------------------------
  // The loop of ass1.py:31-37
  // ---------------------------------------------------------------------------

  /**
   * Builds the UID text the way `loop()` does: append each byte's rendering
   * and, after every byte but the last, one space; then upper-case in place.
   */
  method BuildUid(bytes: seq<byte>) returns (uid: string)
    ensures uid == FormatUid(bytes)
  {
    var n := |bytes|;
    ghost var texts := ByteTexts(bytes);
    uid := "";
    var i := 0;
    while i < n
      invariant 0 <= i <= n
      invariant i == 0 ==> uid == ""
      invariant 0 < i ==> uid == Join(texts[..i]) + (if i < n then [Space] else "")
    {
      if 0 < i {
        JoinSnoc(texts[..i], texts[i]);
        assert texts[..i + 1] == texts[..i] + [texts[i]];
      } else {
        assert texts[..1] == [texts[0]];
      }
      uid := uid + ByteText(bytes[i]);
      if i < n - 1 {
        uid := uid + [Space];
      }
      i := i + 1;
    }
    assert n > 0 ==> texts[..n] == texts;
    uid := ToUpper(uid);
  }

  lemma {:induction false} JoinSnoc(parts: seq<string>, last: string)
    requires |parts| > 0
    ensures Join(parts + [last]) == Join(parts) + [Space] + last
    decreases |parts|
  {
    if |parts| == 1 {
      assert parts + [last] == [parts[0], last];
    } else {
      assert (parts + [last])[1..] == parts[1..] + [last];
      JoinSnoc(parts[1..], last);
    }
  }

  // ---------------------------------------------------------------------------
  // Shape of one byte's rendering
  // ---------------------------------------------------------------------------

  /**
   * A byte renders as one digit below 16 and two digits otherwise: never
   * padded, and a leading `0` only for the byte 0 itself (ass1.py:33, 37).
   */
  lemma UpperByteTextShape(b: byte)
    ensures var t := UpperByteText(b);
      && |t| == (if b < 16 then 1 else 2)
      && (forall i :: 0 <= i < |t| ==> IsUpperHexDigit(t[i]))
      && (t[0] == '0' <==> b == 0)
      && (|t| == 1 ==> DigitValue(t[0]) == b as nat)
      && (|t| == 2 ==> DigitValue(t[0]) * 16 + DigitValue(t[1]) == b as nat)
  {
    var n := b as nat;
    if n < 16 {
      DigitShape(n);
      assert UpperByteText(b) == [UpperChar(LowerDigit(n))];
    } else {
      var hi, lo := n / 16, n % 16;
      assert 0 < hi < 16 && n == hi * 16 + lo;
      DigitShape(hi);
      DigitShape(lo);
      assert LowerHex(n) == [LowerDigit(hi), LowerDigit(lo)];
      assert UpperByteText(b) == [UpperChar(LowerDigit(hi)), UpperChar(LowerDigit(lo))];
    }
  }

  /** An upper-cased `utoa` digit is an upper-case hex digit of the same value. */
  lemma DigitShape(d: nat)
    requires d < 16
    ensures IsUpperHexDigit(UpperChar(LowerDigit(d)))
    ensures DigitValue(UpperChar(LowerDigit(d))) == d
    ensures UpperChar(LowerDigit(d)) == '0' <==> d == 0
  {
  }

  // ---------------------------------------------------------------------------
  // Upper-casing commutes with joining
  // ---------------------------------------------------------------------------

  function UpperAll(parts: seq<string>): (r: seq<string>)
    ensures |r| == |parts|
    ensures forall i :: 0 <= i < |parts| ==> r[i] == ToUpper(parts[i])
  {
    seq(|parts|, i requires 0 <= i < |parts| => ToUpper(parts[i]))
  }

  lemma ToUpperConcat(a: string, b: string)
    ensures ToUpper(a + b) == ToUpper(a) + ToUpper(b)
  {
  }

  lemma {:induction false} ToUpperJoin(parts: seq<string>)
    ensures ToUpper(Join(parts)) == Join(UpperAll(parts))
    decreases |parts|
  {
    if |parts| > 1 {
      ToUpperConcat(parts[0] + [Space], Join(parts[1..]));
      ToUpperConcat(parts[0], [Space]);
      ToUpperJoin(parts[1..]);
      assert UpperAll(parts)[1..] == UpperAll(parts[1..]);
    }
  }

  /** The UID text is the joined upper-case renderings of its bytes. */
  lemma FormatUidAsFields(bytes: seq<byte>)
    ensures FormatUid(bytes) == Join(UpperByteTexts(bytes))
  {
    ToUpperJoin(ByteTexts(bytes));
    assert UpperAll(ByteTexts(bytes)) == UpperByteTexts(bytes);
  }

  function UpperByteTexts(bytes: seq<byte>): (r: seq<string>)
    ensures |r| == |bytes|
    ensures forall i :: 0 <= i < |bytes| ==> r[i] == UpperByteText(bytes[i])
  {
    seq(|bytes|, i requires 0 <= i < |bytes| => UpperByteText(bytes[i]))
  }

  // ---------------------------------------------------------------------------
  // Splitting on spaces, the inverse of Join
  // ---------------------------------------------------------------------------

  /** Index of the first occurrence of `c` in `s`, if any. */
  function IndexOf(s: string, c: char): (r: Option<nat>)
    ensures r.None? ==> c !in s
    ensures r.Some? ==> r.value < |s| && s[r.value] == c
    ensures r.Some? ==> forall j :: 0 <= j < r.value ==> s[j] != c
    decreases |s|
  {
    if |s| == 0 then None
    else if s[0] == c then Some(0)
    else match IndexOf(s[1..], c)
      case None => None
      case Some(i) => Some(i + 1)
  }

  /** The first occurrence of `c` is right after a prefix free of `c`. */
  lemma IndexOfAfter(p: string, c: char, t: string)
    requires c !in p
    ensures IndexOf(p + [c] + t, c) == Some(|p|)
  {
    var s := p + [c] + t;
    assert s[|p|] == c;
    assert forall j :: 0 <= j < |p| ==> s[j] == p[j];
  }

  /** `s` cut at every space. */
  function Split(s: string): (parts: seq<string>)
    ensures |parts| > 0
    decreases |s|
  {
    match IndexOf(s, Space)
    case None => [s]
    case Some(i) => [s[..i]] + Split(s[i + 1..])
  }

  predicate Field(t: string)
  {
    t != [] && Space !in t
  }

  lemma {:induction false} SplitJoin(parts: seq<string>)
    requires |parts| > 0
    requires forall i :: 0 <= i < |parts| ==> Field(parts[i])
    ensures Split(Join(parts)) == parts
    decreases |parts|
  {
    if |parts| == 1 {
      assert IndexOf(parts[0], Space) == None;
    } else {
      var rest := Join(parts[1..]);
      IndexOfAfter(parts[0], Space, rest);
      var s := parts[0] + [Space] + rest;
      assert s[..|parts[0]|] == parts[0];
      assert s[|parts[0]| + 1..] == rest;
      SplitJoin(parts[1..]);
    }
  }

  lemma {:induction false} JoinSplit(s: string)
    ensures Join(Split(s)) == s
    decreases |s|
  {
    match IndexOf(s, Space)
    case None =>
    case Some(i) =>
      JoinSplit(s[i + 1..]);
      assert s == s[..i] + [Space] + s[i + 1..];
  }

  // ---------------------------------------------------------------------------
  // Parsing the UID text back into bytes
  // ---------------------------------------------------------------------------

  /** Value of a field in the exact form `FormatUid` writes: one or two digits, no leading `0` on two. */
  function FieldValue(t: string): (r: Option<nat>)
    ensures r.Some? ==> r.value < 256
  {
    if |t| == 1 && IsUpperHexDigit(t[0]) then
      Some(DigitValue(t[0]))
    else if |t| == 2 && IsUpperHexDigit(t[0]) && IsUpperHexDigit(t[1]) && t[0] != '0' then
      Some(DigitValue(t[0]) * 16 + DigitValue(t[1]))
    else
      None
  }

  /** One space-free field of a UID text read back as the byte it renders. */
  function ParseByte(t: string): (r: Option<byte>)
  {
    match FieldValue(t)
    case None => None
    case Some(v) => Some(v as byte)
  }

  lemma ParseByteRoundTrip(b: byte)
    ensures ParseByte(UpperByteText(b)) == Some(b)
  {
    UpperByteTextShape(b);
  }

  lemma ParseByteCanonical(t: string, b: byte)
    requires ParseByte(t) == Some(b)
    ensures t == UpperByteText(b)
  {
    var v := FieldValue(t).value;
    assert b as nat == v;
    FieldCanonical(t, v);
  }

  /** A field is the rendering of its own value. */
  lemma FieldCanonical(t: string, v: nat)
    requires FieldValue(t) == Some(v)
    ensures t == ToUpper(LowerHex(v))
  {
  }

  lemma DivMod16(hi: nat, lo: nat)
    requires lo < 16
    ensures (hi * 16 + lo) / 16 == hi && (hi * 16 + lo) % 16 == lo
  {
  }

  lemma DigitValueInjective(c: char, d: char)
    requires IsUpperHexDigit(c) && IsUpperHexDigit(d)
    requires DigitValue(c) == DigitValue(d)
    ensures c == d
  {
  }

  function ParseFields(fields: seq<string>): (r: Option<seq<byte>>)
    ensures r.Some? ==> |r.value| == |fields|
    decreases |fields|
  {
    if |fields| == 0 then Some([])
    else match (ParseByte(fields[0]), ParseFields(fields[1..]))
      case (Some(b), Some(bs)) => Some([b] + bs)
      case _ => None
  }

  /** Reads a UID text back into the bytes it was made from; `None` if it is not in that form. */
  function ParseUid(s: string): (r: Option<seq<byte>>)
  {
    if s == "" then Some([]) else ParseFields(Split(s))
  }

  lemma {:induction false} ParseFieldsRoundTrip(bytes: seq<byte>)
    ensures ParseFields(UpperByteTexts(bytes)) == Some(bytes)
    decreases |bytes|
  {
    if |bytes| > 0 {
      ParseByteRoundTrip(bytes[0]);
      assert UpperByteTexts(bytes)[1..] == UpperByteTexts(bytes[1..]);
      ParseFieldsRoundTrip(bytes[1..]);
      assert [bytes[0]] + bytes[1..] == bytes;
    }
  }

  lemma {:induction false} ParseFieldsCanonical(fields: seq<string>, bytes: seq<byte>)
    requires ParseFields(fields) == Some(bytes)
    ensures fields == UpperByteTexts(bytes)
    decreases |fields|
  {
    if |fields| > 0 {
      var b := ParseByte(fields[0]).value;
      var bs := ParseFields(fields[1..]).value;
      assert bytes == [b] + bs;
      ParseByteCanonical(fields[0], b);
      ParseFieldsCanonical(fields[1..], bs);
      assert bytes[1..] == bs;
      assert fields == [fields[0]] + fields[1..];
    }
  }

  /** Every byte's rendering is a field: non-empty and free of spaces. */
  lemma FieldsOfBytes(bytes: seq<byte>)
    ensures forall i :: 0 <= i < |bytes| ==> Field(UpperByteTexts(bytes)[i])
  {
    forall i | 0 <= i < |bytes|
      ensures Field(UpperByteTexts(bytes)[i])
    {
      UpperByteTextShape(bytes[i]);
    }
  }

  /** Reading back the text of a card gives exactly its bytes. */
  lemma ParseFormatUid(bytes: seq<byte>)
    ensures ParseUid(FormatUid(bytes)) == Some(bytes)
  {
    FormatUidAsFields(bytes);
    var fields := UpperByteTexts(bytes);
    if |bytes| == 0 {
      assert FormatUid(bytes) == "";
    } else {
      FieldsOfBytes(bytes);
      assert fields[0] != [];
      JoinNonEmpty(fields);
      SplitJoin(fields);
      ParseFieldsRoundTrip(bytes);
    }
  }

  lemma JoinNonEmpty(parts: seq<string>)
    requires |parts| > 0 && parts[0] != []
    ensures Join(parts) != ""
  {
  }

  /** Whatever `ParseUid` accepts is exactly the UID text of the bytes it returns. */
  lemma FormatParseUid(s: string, bytes: seq<byte>)
    requires ParseUid(s) == Some(bytes)
    ensures FormatUid(bytes) == s
  {
    FormatUidAsFields(bytes);
    if s != "" {
      ParseFieldsCanonical(Split(s), bytes);
      JoinSplit(s);
    }
  }

  /** Two cards produce the same UID text only if their UID bytes are the same. */
  lemma FormatUidInjective(a: seq<byte>, b: seq<byte>)
    requires FormatUid(a) == FormatUid(b)
    ensures a == b
  {
    ParseFormatUid(a);
    ParseFormatUid(b);
  }

  // ---------------------------------------------------------------------------
  // Alphabet and separators (ass1.py:31-37)
  // ---------------------------------------------------------------------------

  /** Number of occurrences of `c` in `s`. */
  function Count(s: string, c: char): nat
    decreases |s|
  {
    if |s| == 0 then 0 else (if s[0] == c then 1 else 0) + Count(s[1..], c)
  }

  lemma {:induction false} CountConcat(a: string, b: string, c: char)
    ensures Count(a + b, c) == Count(a, c) + Count(b, c)
    decreases |a|
  {
    if |a| == 0 {
      assert a + b == b;
    } else {
      assert (a + b)[0] == a[0];
      assert (a + b)[1..] == a[1..] + b;
      CountConcat(a[1..], b, c);
    }
  }

  lemma {:induction false} CountAbsent(s: string, c: char)
    requires c !in s
    ensures Count(s, c) == 0
    decreases |s|
  {
    if |s| > 0 {
      assert c !in s[1..];
      CountAbsent(s[1..], c);
    }
  }

  /** Joining fields puts exactly one space between consecutive fields and none elsewhere. */
  lemma {:induction false} JoinShape(parts: seq<string>)
    requires |parts| > 0
    requires forall i :: 0 <= i < |parts| ==> Field(parts[i])
    ensures var s := Join(parts);
      && Count(s, Space) == |parts| - 1
      && s != [] && s[0] != Space && s[|s| - 1] != Space
    decreases |parts|
  {
    CountAbsent(parts[0], Space);
    if |parts| > 1 {
      JoinShape(parts[1..]);
      var rest := Join(parts[1..]);
      CountConcat(parts[0] + [Space], rest, Space);
      CountConcat(parts[0], [Space], Space);
    }
  }

  /**
   * A card with n > 0 UID bytes gives a text with n - 1 spaces, none leading
   * or trailing, and whose space-separated fields are the unpadded
   * upper-case renderings of the bytes, in order.
   */
  lemma UidSeparators(bytes: seq<byte>)
    requires |bytes| > 0
    ensures var s := FormatUid(bytes);
      && Count(s, Space) == |bytes| - 1
      && s[0] != Space && s[|s| - 1] != Space
      && Split(s) == UpperByteTexts(bytes)
  {
    FormatUidAsFields(bytes);
    FieldsOfBytes(bytes);
    JoinShape(UpperByteTexts(bytes));
    SplitJoin(UpperByteTexts(bytes));
  }

  lemma {:induction false} JoinAlphabet(parts: seq<string>)
    requires forall i, j :: 0 <= i < |parts| && 0 <= j < |parts[i]| ==> IsUpperHexDigit(parts[i][j])
    ensures forall k :: 0 <= k < |Join(parts)| ==> IsUpperHexDigit(Join(parts)[k]) || Join(parts)[k] == Space
    decreases |parts|
  {
    if |parts| > 1 {
      JoinAlphabet(parts[1..]);
      var s := Join(parts);
      forall k | 0 <= k < |s|
        ensures IsUpperHexDigit(s[k]) || s[k] == Space
      {
        if k < |parts[0]| {
          assert s[k] == parts[0][k];
        } else if k > |parts[0]| {
          assert s[k] == Join(parts[1..])[k - |parts[0]| - 1];
        }
      }
    }
  }

  /** The UID text holds only `0`-`9`, `A`-`F` and spaces; in particular no comma. */
  lemma UidAlphabet(bytes: seq<byte>)
    ensures forall k :: 0 <= k < |FormatUid(bytes)| ==>
      IsUpperHexDigit(FormatUid(bytes)[k]) || FormatUid(bytes)[k] == Space
    ensures ',' !in FormatUid(bytes)
  {
    FormatUidAsFields(bytes);
    var fields := UpperByteTexts(bytes);
    forall i, j | 0 <= i < |fields| && 0 <= j < |fields[i]|
      ensures IsUpperHexDigit(fields[i][j])
    {
      UpperByteTextShape(bytes[i]);
    }
    JoinAlphabet(fields);
  }
}
