/**
 `scrub_text` of layawatch/obs/redact.py: strip control characters, encode as UTF-8
 (RFC 3629, section 3), cut at a byte limit, decode leniently. A char is a Unicode scalar value.
 */
module Redact {
  import opened Options

  type Byte = b: int | 0 <= b < 256

  // ---- UTF-8 --------------------------------------------------------------------------------

  function Low6(n: int): Byte { 0x80 + n % 64 }

  function EncodeChar(c: char): (r: seq<Byte>)
    ensures 1 <= |r| <= 4
  {
    var n := c as int;
    if n < 0x80 then [n]
    else if n < 0x800 then [0xC0 + n / 64, Low6(n)]
    else if n < 0x10000 then [0xE0 + n / 4096, Low6(n / 64), Low6(n)]
    else [0xF0 + n / 262144, Low6(n / 4096), Low6(n / 64), Low6(n)]
  }

  function Encode(s: string): seq<Byte> {
    if s == "" then [] else EncodeChar(s[0]) + Encode(s[1..])
  }

  predicate Continues(b: Byte) { 0x80 <= b < 0xC0 }

  /** How many bytes a leading byte announces; 0 if it cannot lead. */
  function Announced(b: Byte): nat {
    if b < 0x80 then 1 else if b < 0xC0 then 0 else if b < 0xE0 then 2
    else if b < 0xF0 then 3 else if b < 0xF8 then 4 else 0
  }

  /** Six more bits from a continuation byte. */
  function Shift(acc: int, b: Byte): int { acc * 64 + (b as int - 0x80) }

  /** The value of `k` continuation bytes after the leading bits `acc`. */
  function Gather(acc: int, bytes: seq<Byte>, k: nat): int
    requires k <= |bytes|
    decreases k
  {
    if k == 0 then acc else Gather(Shift(acc, bytes[0]), bytes[1..], k - 1)
  }

  function LeadBits(b: Byte): int {
    if b < 0x80 then b else if b < 0xE0 then b - 0xC0 else if b < 0xF0 then b - 0xE0 else b - 0xF0
  }

  /** In range, not a surrogate, and not longer than it has to be. */
  predicate Proper(n: int, length: nat) {
    && (0 <= n < 0xD800 || 0xE000 <= n <= 0x10FFFF)
    && (length == 1 || (length == 2 && n >= 0x80) || (length == 3 && n >= 0x800) || (length == 4 && n >= 0x10000))
  }

  /** The character the bytes start with, if they start with a complete and valid one. */
  function DecodeOne(bytes: seq<Byte>): (r: Option<char>)
    ensures r.Some? ==> bytes != [] && 1 <= Announced(bytes[0]) <= |bytes|
  {
    if bytes == [] then None
    else
      var length := Announced(bytes[0]);
      if length == 0 || |bytes| < length then None
      else if exists i :: 1 <= i < length && !Continues(bytes[i]) then None
      else
        var n := Gather(LeadBits(bytes[0]), bytes[1..], length - 1);
        if Proper(n, length) then Some(n as char) else None
  }

  /** Decoding with errors ignored: what does not start a valid character is passed over. */
  function DecodeIgnore(bytes: seq<Byte>): string
    decreases |bytes|
  {
    if bytes == [] then ""
    else
      match DecodeOne(bytes)
      case Some(c) => [c] + DecodeIgnore(bytes[Announced(bytes[0])..])
      case None => DecodeIgnore(bytes[1..])
  }

  // ---- scrub_text ---------------------------------------------------------------------------

  /** Category Cc, minus newline and tab. */
  predicate Stripped(c: char) {
    var n := c as int;
    (n < 0x20 || 0x7F <= n < 0xA0) && c != '\n' && c != '\t'
  }

  function Strip(s: string): string {
    if s == "" then ""
    else if Stripped(s[0]) then Strip(s[1..]) else [s[0]] + Strip(s[1..])
  }

  function ByteLen(s: string): nat { |Encode(s)| }

  /** None is the ValueError of a negative limit. */
  function ScrubText(s: string, maxBytes: int): Option<string> {
    if maxBytes < 0 then None
    else
      var cleaned := Strip(s);
      var encoded := Encode(cleaned);
      Some(if |encoded| > maxBytes then DecodeIgnore(encoded[..maxBytes]) else cleaned)
  }

  // ---- codec lemmas -------------------------------------------------------------------------

  lemma EncodedShape(c: char)
    ensures var e := EncodeChar(c);
            && Announced(e[0]) == |e| && (forall i | 1 <= i < |e| :: Continues(e[i]))
            && Proper(c as int, |e|)
  {
  }

  lemma ShiftBack(n: nat)
    ensures Shift(n / 64, Low6(n)) == n
  {
  }

  lemma DivTwice(n: nat)
    ensures n / 64 / 64 == n / 4096 && n / 4096 / 64 == n / 262144
  {
  }

  lemma Gather1(acc: int, b: seq<Byte>)
    requires |b| >= 1
    ensures Gather(acc, b, 1) == Shift(acc, b[0])
  {
    assert Gather(Shift(acc, b[0]), b[1..], 0) == Shift(acc, b[0]);
  }

  lemma Gather2(acc: int, b: seq<Byte>)
    requires |b| >= 2
    ensures Gather(acc, b, 2) == Shift(Shift(acc, b[0]), b[1])
  {
    Gather1(Shift(acc, b[0]), b[1..]);
  }

  lemma Gather3(acc: int, b: seq<Byte>)
    requires |b| >= 3
    ensures Gather(acc, b, 3) == Shift(Shift(Shift(acc, b[0]), b[1]), b[2])
  {
    Gather2(Shift(acc, b[0]), b[1..]);
  }

  lemma GatherTwo(n: nat, rest: seq<Byte>)
    ensures Gather(n / 64, [Low6(n)] + rest, 1) == n
  {
    Gather1(n / 64, [Low6(n)] + rest);
    ShiftBack(n);
  }

  lemma GatherThree(n: nat, rest: seq<Byte>)
    ensures Gather(n / 4096, [Low6(n / 64), Low6(n)] + rest, 2) == n
  {
    Gather2(n / 4096, [Low6(n / 64), Low6(n)] + rest);
    DivTwice(n);
    ShiftBack(n / 64);
    ShiftBack(n);
  }

  lemma GatherFour(n: nat, rest: seq<Byte>)
    ensures Gather(n / 262144, [Low6(n / 4096), Low6(n / 64), Low6(n)] + rest, 3) == n
  {
    Gather3(n / 262144, [Low6(n / 4096), Low6(n / 64), Low6(n)] + rest);
    DivTwice(n);
    ShiftBack(n / 4096);
    ShiftBack(n / 64);
    ShiftBack(n);
  }

  /** The payload bits of an encoded character are its code point, whatever follows it. */
  lemma GatherEncoded(c: char, rest: seq<Byte>)
    ensures var e := EncodeChar(c);
            Gather(LeadBits(e[0]), e[1..] + rest, |e| - 1) == c as int
  {
    var n, e := c as int, EncodeChar(c);
    if n < 0x80 {
    } else if n < 0x800 {
      assert e[1..] == [Low6(n)];
      GatherTwo(n, rest);
    } else if n < 0x10000 {
      assert e[1..] == [Low6(n / 64), Low6(n)];
      GatherThree(n, rest);
    } else {
      assert e[1..] == [Low6(n / 4096), Low6(n / 64), Low6(n)];
      GatherFour(n, rest);
    }
  }

  /** A whole encoded character decodes to itself, whatever follows. */
  lemma DecodeEncoded(c: char, rest: seq<Byte>)
    ensures DecodeOne(EncodeChar(c) + rest) == Some(c)
    ensures Announced((EncodeChar(c) + rest)[0]) == |EncodeChar(c)|
  {
    var e := EncodeChar(c);
    EncodedShape(c);
    GatherEncoded(c, rest);
    assert (e + rest)[1..] == e[1..] + rest;
  }

  lemma {:induction false} LooseBytesVanish(bytes: seq<Byte>)
    requires forall i | 0 <= i < |bytes| :: Continues(bytes[i])
    ensures DecodeIgnore(bytes) == ""
  {
    if bytes != [] {
      LooseBytesVanish(bytes[1..]);
    }
  }

  /** A character cut anywhere inside leaves nothing behind. */
  lemma CutCharVanishes(c: char, m: nat)
    requires m < |EncodeChar(c)|
    ensures DecodeIgnore(EncodeChar(c)[..m]) == ""
  {
    if m > 0 {
      var bytes := EncodeChar(c)[..m];
      EncodedShape(c);
      assert DecodeOne(bytes) == None;
      LooseBytesVanish(bytes[1..]);
    }
  }

  /** How many leading characters fit in `m` bytes. */
  function Fit(s: string, m: nat): nat {
    if s == "" || |EncodeChar(s[0])| > m then 0 else 1 + Fit(s[1..], m - |EncodeChar(s[0])|)
  }

  lemma {:induction false} FitInRange(s: string, m: nat)
    ensures Fit(s, m) <= |s|
  {
    if s != "" && |EncodeChar(s[0])| <= m {
      FitInRange(s[1..], m - |EncodeChar(s[0])|);
    }
  }

  lemma CutBehind(e: seq<Byte>, more: seq<Byte>, m: nat)
    requires |e| <= m <= |e| + |more|
    ensures (e + more)[..m] == e + more[..m - |e|]
  {
  }

  lemma CutInside(e: seq<Byte>, more: seq<Byte>, m: nat)
    requires m <= |e|
    ensures (e + more)[..m] == e[..m]
  {
  }

  lemma DecodeFirst(c: char, tail: seq<Byte>)
    ensures DecodeIgnore(EncodeChar(c) + tail) == [c] + DecodeIgnore(tail)
  {
    var e := EncodeChar(c);
    DecodeEncoded(c, tail);
    assert (e + tail)[|e|..] == tail;
  }

  lemma KeepFirst(s: string, m: nat)
    requires s != "" && |EncodeChar(s[0])| <= m <= |Encode(s)|
    ensures DecodeIgnore(Encode(s)[..m])
         == [s[0]] + DecodeIgnore(Encode(s[1..])[..m - |EncodeChar(s[0])|])
  {
    var e := EncodeChar(s[0]);
    CutBehind(e, Encode(s[1..]), m);
    DecodeFirst(s[0], Encode(s[1..])[..m - |e|]);
  }

  lemma LoseFirst(s: string, m: nat)
    requires s != "" && m < |EncodeChar(s[0])|
    ensures m <= |Encode(s)| && DecodeIgnore(Encode(s)[..m]) == ""
  {
    CutInside(EncodeChar(s[0]), Encode(s[1..]), m);
    CutCharVanishes(s[0], m);
  }

  /** Cutting the bytes and decoding leniently keeps exactly the characters that fit. */
  lemma {:induction false} CutKeepsWhatFits(s: string, m: nat)
    requires m <= |Encode(s)|
    ensures Fit(s, m) <= |s| && DecodeIgnore(Encode(s)[..m]) == s[..Fit(s, m)]
  {
    FitInRange(s, m);
    if s != "" && |EncodeChar(s[0])| <= m {
      KeepFirst(s, m);
      CutKeepsWhatFits(s[1..], m - |EncodeChar(s[0])|);
    } else if s != "" {
      LoseFirst(s, m);
    }
  }

  lemma {:induction false} FitIsThreshold(s: string, m: nat, j: nat)
    requires j <= |s|
    ensures |Encode(s[..j])| <= m <==> j <= Fit(s, m)
  {
    if j > 0 {
      var e := EncodeChar(s[0]);
      assert s[..j] == [s[0]] + s[1..][..j - 1];
      assert s[..j][0] == s[0] && s[..j][1..] == s[1..][..j - 1];
      if |e| <= m {
        FitIsThreshold(s[1..], m - |e|, j - 1);
      }
    }
  }

  // ---- main results -------------------------------------------------------------------------

  /** Nothing is lost when nothing is cut. */
  lemma {:induction false} RoundTrip(s: string)
    ensures DecodeIgnore(Encode(s)) == s
  {
    if s != "" {
      DecodeFirst(s[0], Encode(s[1..]));
      RoundTrip(s[1..]);
    }
  }

  predicate FitsAt(text: string, j: nat, maxBytes: int)
    requires j <= |text|
  {
    ByteLen(text[..j]) <= maxBytes
  }

  /** `r` is the longest prefix that fits: of all prefixes, exactly those within it fit. */
  ghost predicate LongestFit(text: string, maxBytes: int, r: string) {
    r <= text && forall j | 0 <= j <= |text| :: FitsAt(text, j, maxBytes) <==> j <= |r|
  }

  /** The result is the longest prefix of the stripped text that fits. */
  lemma ScrubIsLongestFit(s: string, maxBytes: nat)
    ensures LongestFit(Strip(s), maxBytes, ScrubText(s, maxBytes).value)
  {
    var cleaned := Strip(s);
    var encoded := Encode(cleaned);
    forall j | 0 <= j <= |cleaned| ensures FitsAt(cleaned, j, maxBytes) <==> j <= Fit(cleaned, maxBytes) {
      FitIsThreshold(cleaned, maxBytes, j);
    }
    FitInRange(cleaned, maxBytes);
    assert cleaned[..|cleaned|] == cleaned;
    assert FitsAt(cleaned, |cleaned|, maxBytes) <==> |cleaned| <= Fit(cleaned, maxBytes);
    if |encoded| > maxBytes {
      CutKeepsWhatFits(cleaned, maxBytes);
    }
  }

  lemma {:induction false} StripIsClean(s: string)
    ensures forall i | 0 <= i < |Strip(s)| :: !Stripped(Strip(s)[i])
  {
    if s != "" {
      StripIsClean(s[1..]);
    }
  }

  lemma {:induction false} CleanStays(s: string)
    requires forall i | 0 <= i < |s| :: !Stripped(s[i])
    ensures Strip(s) == s
  {
    if s != "" {
      CleanStays(s[1..]);
    }
  }

  /** Scrubbing twice is scrubbing once at the smaller limit. */
  lemma ScrubTwice(s: string, a: nat, b: nat)
    ensures ScrubText(ScrubText(s, a).value, b) == ScrubText(s, if a <= b then a else b)
  {
    var once := ScrubText(s, a).value;
    var twice, direct := ScrubText(once, b).value, ScrubText(s, if a <= b then a else b).value;
    StripIsClean(s);
    ScrubIsLongestFit(s, a);
    CleanStays(once);
    ScrubIsLongestFit(once, b);
    ScrubIsLongestFit(s, if a <= b then a else b);
    SamePrefix(Strip(s), once, twice, direct, a, b);
  }

  lemma SamePrefix(text: string, once: string, twice: string, direct: string, a: nat, b: nat)
    requires LongestFit(text, a, once) && LongestFit(once, b, twice)
    requires LongestFit(text, if a <= b then a else b, direct)
    ensures twice == direct
  {
    assert once[..|twice|] == text[..|twice|];
    assert FitsAt(once, |twice|, b) && FitsAt(text, |twice|, a);
    assert FitsAt(text, |twice|, if a <= b then a else b);
    assert FitsAt(text, |direct|, a);
    assert once[..|direct|] == text[..|direct|];
    assert FitsAt(once, |direct|, b);
    assert |twice| == |direct|;
  }

  /** Tab, newline, and everything but the controls U+0000 to U+001F and U+007F to U+009F. */
  predicate Printable(c: char) {
    var n := c as int;
    n == 9 || n == 10 || 32 <= n <= 126 || 160 <= n
  }

  predicate Ascending(at: seq<nat>) { forall i, j | 0 <= i < j < |at| :: at[i] < at[j] }

  predicate Picks(s: string, r: string, at: seq<nat>) {
    |at| == |r| && forall i | 0 <= i < |at| :: at[i] < |s| && r[i] == s[at[i]]
  }

  predicate AllPrintable(s: string, at: seq<nat>) {
    forall k: nat | k < |s| :: k in at <==> Printable(s[k])
  }

  function Moved(at: seq<nat>): seq<nat> { seq(|at|, i requires 0 <= i < |at| => at[i] + 1) }

  lemma MovedHas(at: seq<nat>, k: nat)
    ensures k in Moved(at) <==> k > 0 && k - 1 in at
  {
    if k > 0 && k - 1 in at {
      var i :| 0 <= i < |at| && at[i] == k - 1;
      assert Moved(at)[i] == k;
    }
  }

  lemma MovedPrintable(s: string, at: seq<nat>)
    requires s != "" && AllPrintable(s[1..], at)
    ensures AllPrintable(s, if Printable(s[0]) then [0] + Moved(at) else Moved(at))
  {
    forall k: nat | k < |s| ensures k in Moved(at) <==> k > 0 && Printable(s[k]) {
      MovedHas(at, k);
      if k > 0 {
        assert s[1..][k - 1] == s[k];
      }
    }
  }

  lemma MovedPicks(s: string, r: string, at: seq<nat>)
    requires s != "" && Picks(s[1..], r, at) && Ascending(at)
    ensures Picks(s, r, Moved(at)) && Ascending(Moved(at))
    ensures Picks(s, [s[0]] + r, [0] + Moved(at)) && Ascending([0] + Moved(at))
  {
    assert forall i | 0 <= i < |at| :: s[1..][at[i]] == s[at[i] + 1];
  }

  lemma StripHead(s: string)
    requires s != ""
    ensures Strip(s) == if Printable(s[0]) then [s[0]] + Strip(s[1..]) else Strip(s[1..])
  {
  }

  /** Stripping keeps the printable characters, in their order, and no others. */
  lemma {:induction false} StripKeepsPrintable(s: string) returns (at: seq<nat>)
    ensures Ascending(at) && Picks(s, Strip(s), at) && AllPrintable(s, at)
  {
    if s == "" {
      at := [];
    } else {
      var rest := StripKeepsPrintable(s[1..]);
      MovedPrintable(s, rest);
      MovedPicks(s, Strip(s[1..]), rest);
      StripHead(s);
      at := if Printable(s[0]) then [0] + Moved(rest) else Moved(rest);
    }
  }

  /** A text is returned as it is iff all of it is printable and it fits. */
  lemma UnchangedIff(s: string, maxBytes: int)
    ensures ScrubText(s, maxBytes) == Some(s)
       <==> (forall i | 0 <= i < |s| :: Printable(s[i])) && ByteLen(s) <= maxBytes
  {
    if maxBytes < 0 {
    } else if forall i | 0 <= i < |s| :: Printable(s[i]) {
      CleanStays(s);
      ScrubIsLongestFit(s, maxBytes);
      assert s[..|s|] == s;
      assert FitsAt(s, |s|, maxBytes) <==> |s| <= |ScrubText(s, maxBytes).value|;
    } else {
      ScrubIsLongestFit(s, maxBytes);
      StripIsClean(s);
    }
  }
}
