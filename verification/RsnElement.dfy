/** The RSN element (section 9.4.2.25 of IEEE 802.11-2016): its byte layout and the names of its suites. */
module RsnFormat {
  import opened Decimals
  import opened Wrappers

  type byte = b: int | 0 <= b < 256

  type Selector = s: seq<byte> | |s| == 4 witness [0, 0, 0, 0]
  type Pmkid = s: seq<byte> | |s| == 16 witness [0, 0, 0, 0, 0, 0, 0, 0, 0, 0, 0, 0, 0, 0, 0, 0]

  datatype Tail =
    | NoCapabilities
    | Capabilities(capabilities: nat)
    | PmkidList(capabilities: nat, pmkids: seq<Pmkid>, management: Option<Selector>)

  datatype Rsn = Rsn(group: Selector, pairwise: seq<Selector>, akms: seq<Selector>, tail: Tail)

  predicate WellFormed(r: Rsn) {
    && 1 <= |r.pairwise| < 0x1_0000
    && 1 <= |r.akms| < 0x1_0000
    && match r.tail
       case NoCapabilities => true
       case Capabilities(c) => c < 0x1_0000
       case PmkidList(c, ids, _) => c < 0x1_0000 && |ids| < 0x1_0000
  }

  // ---- Encoding ----------------------------------------------------------

  /** Two bytes, the low one first. */
  function U16(n: nat): (s: seq<byte>)
    requires n < 0x1_0000
    ensures |s| == 2 && s[0] as int + 256 * s[1] as int == n
  {
    var high: nat := n / 256;
    var low: nat := n - 256 * high;
    [low, high]
  }

  function U16At(s: seq<byte>, i: nat): nat
    requires i + 2 <= |s|
  {
    var low: nat, high: nat := s[i], s[i + 1];
    low + 256 * high
  }

  function Flatten4(ss: seq<Selector>): (s: seq<byte>)
    ensures |s| == 4 * |ss|
  {
    if ss == [] then [] else ss[0] + Flatten4(ss[1..])
  }

  function Flatten16(ss: seq<Pmkid>): (s: seq<byte>)
    ensures |s| == 16 * |ss|
  {
    if ss == [] then [] else ss[0] + Flatten16(ss[1..])
  }

  function EncodeTail(t: Tail): seq<byte>
    requires match t
             case NoCapabilities => true
             case Capabilities(c) => c < 0x1_0000
             case PmkidList(c, ids, _) => c < 0x1_0000 && |ids| < 0x1_0000
  {
    match t
    case NoCapabilities => []
    case Capabilities(c) => U16(c)
    case PmkidList(c, ids, m) =>
      U16(c) + U16(|ids|) + Flatten16(ids) + (if m.Some? then m.value else [])
  }

  function Encode(r: Rsn): seq<byte>
    requires WellFormed(r)
  {
    U16(1) + (r.group + (U16(|r.pairwise|) + EncodeLists(r)))
  }

  function EncodeLists(r: Rsn): seq<byte>
    requires WellFormed(r)
  {
    Flatten4(r.pairwise) + (U16(|r.akms|) + (Flatten4(r.akms) + EncodeTail(r.tail)))
  }

  // ---- Decoding ----------------------------------------------------------

  function Chunks4(s: seq<byte>): (ss: seq<Selector>)
    requires |s| % 4 == 0
    ensures 4 * |ss| == |s|
  {
    if s == [] then [] else [s[..4]] + Chunks4(s[4..])
  }

  function Chunks16(s: seq<byte>): (ss: seq<Pmkid>)
    requires |s| % 16 == 0
    ensures 16 * |ss| == |s|
  {
    if s == [] then [] else [s[..16]] + Chunks16(s[16..])
  }

  lemma {:induction false} ChunksOfFlatten4(ss: seq<Selector>)
    ensures Chunks4(Flatten4(ss)) == ss
  {
    if ss != [] {
      ChunksOfFlatten4(ss[1..]);
      assert Flatten4(ss)[..4] == ss[0] && Flatten4(ss)[4..] == Flatten4(ss[1..]);
    }
  }

  lemma {:induction false} FlattenOfChunks4(s: seq<byte>)
    requires |s| % 4 == 0
    ensures Flatten4(Chunks4(s)) == s
  {
    if s != [] {
      FlattenOfChunks4(s[4..]);
      assert Chunks4(s)[1..] == Chunks4(s[4..]);
      assert s == s[..4] + s[4..];
    }
  }

  lemma {:induction false} ChunksOfFlatten16(ss: seq<Pmkid>)
    ensures Chunks16(Flatten16(ss)) == ss
  {
    if ss != [] {
      ChunksOfFlatten16(ss[1..]);
      assert Flatten16(ss)[..16] == ss[0] && Flatten16(ss)[16..] == Flatten16(ss[1..]);
    }
  }

  lemma {:induction false} FlattenOfChunks16(s: seq<byte>)
    requires |s| % 16 == 0
    ensures Flatten16(Chunks16(s)) == s
  {
    if s != [] {
      FlattenOfChunks16(s[16..]);
      assert Chunks16(s)[1..] == Chunks16(s[16..]);
      assert s == s[..16] + s[16..];
    }
  }

  /** Where the parts of an element lie, read off its counts. */
  function PairwiseCount(s: seq<byte>): nat
    requires |s| >= 8
  {
    U16At(s, 6)
  }

  function AkmStart(s: seq<byte>): nat
    requires |s| >= 8
  {
    8 + 4 * PairwiseCount(s)
  }

  predicate PairwiseFits(s: seq<byte>) {
    |s| >= 8 && U16At(s, 0) == 1 && PairwiseCount(s) >= 1 && |s| >= AkmStart(s) + 2
  }

  function AkmCount(s: seq<byte>): nat
    requires PairwiseFits(s)
  {
    U16At(s, AkmStart(s))
  }

  function TailStart(s: seq<byte>): nat
    requires PairwiseFits(s)
  {
    AkmStart(s) + 2 + 4 * AkmCount(s)
  }

  predicate SuitesFit(s: seq<byte>) {
    PairwiseFits(s) && AkmCount(s) >= 1 && |s| >= TailStart(s)
  }

  /** Nothing, two capability bytes, or capabilities and a PMKID list that leaves 0 or 4 bytes over. */
  predicate TailFits(t: seq<byte>) {
    || |t| == 0
    || |t| == 2
    || (|t| >= 4 && (|t| == 4 + 16 * U16At(t, 2) || |t| == 8 + 16 * U16At(t, 2)))
  }

  predicate Accepts(s: seq<byte>) {
    SuitesFit(s) && TailFits(s[TailStart(s)..])
  }

  function DecodeTail(t: seq<byte>): Tail
    requires TailFits(t)
  {
    if |t| == 0 then NoCapabilities
    else if |t| == 2 then Capabilities(U16At(t, 0))
    else
      var n := 4 + 16 * U16At(t, 2);
      PmkidList(U16At(t, 0), Chunks16(t[4..n]), if |t| == n then None else Some(t[n..]))
  }

  function Decode(s: seq<byte>): Rsn
    requires Accepts(s)
  {
    Rsn(s[2..6], Chunks4(s[8..AkmStart(s)]), Chunks4(s[AkmStart(s) + 2..TailStart(s)]), DecodeTail(s[TailStart(s)..]))
  }

  lemma U16RoundTrip(n: nat)
    requires n < 0x1_0000
    ensures U16At(U16(n), 0) == n
  {
  }

  lemma U16OfBytes(s: seq<byte>, i: nat)
    requires i + 2 <= |s|
    ensures U16At(s, i) < 0x1_0000 && U16(U16At(s, i)) == s[i..i + 2]
  {
  }

  lemma TailRoundTrip(t: Tail)
    requires match t
             case NoCapabilities => true
             case Capabilities(c) => c < 0x1_0000
             case PmkidList(c, ids, _) => c < 0x1_0000 && |ids| < 0x1_0000
    ensures TailFits(EncodeTail(t)) && DecodeTail(EncodeTail(t)) == t
  {
    match t
    case NoCapabilities =>
    case Capabilities(c) =>
    case PmkidList(c, ids, m) =>
      var e := EncodeTail(t);
      ChunksOfFlatten16(ids);
      U16RoundTrip(c);
      U16RoundTrip(|ids|);
      assert U16At(e, 0) == c && U16At(e, 2) == |ids|;
      assert e[4..4 + 16 * |ids|] == Flatten16(ids);
      if m.Some? { assert e[4 + 16 * |ids|..] == m.value; }
  }

  lemma TailOfBytes(t: seq<byte>)
    requires TailFits(t)
    ensures match DecodeTail(t)
            case NoCapabilities => true
            case Capabilities(c) => c < 0x1_0000
            case PmkidList(c, ids, _) => c < 0x1_0000 && |ids| < 0x1_0000
    ensures EncodeTail(DecodeTail(t)) == t
  {
    hide U16, U16At, Chunks16, Flatten16;
    if |t| >= 2 { U16OfBytes(t, 0); }
    if |t| == 2 { assert t[0..2] == t; }
    if |t| > 2 {
      U16OfBytes(t, 2);
      var n := 4 + 16 * U16At(t, 2);
      FlattenOfChunks16(t[4..n]);
      assert t == t[0..2] + t[2..4] + t[4..n] + t[n..];
    }
  }

  /** Where each part of an encoding ends up. */
  ghost predicate LaidOut(s: seq<byte>, r: Rsn)
    requires WellFormed(r)
  {
    var p, a := |r.pairwise|, |r.akms|;
    && 10 + 4 * p + 4 * a <= |s|
    && U16At(s, 0) == 1 && s[2..6] == r.group
    && U16At(s, 6) == p && s[8..8 + 4 * p] == Flatten4(r.pairwise)
    && U16At(s, 8 + 4 * p) == a && s[10 + 4 * p..10 + 4 * p + 4 * a] == Flatten4(r.akms)
    && s[10 + 4 * p + 4 * a..] == EncodeTail(r.tail)
  }

  lemma EncodingIsLaidOut(r: Rsn)
    requires WellFormed(r)
    ensures LaidOut(Encode(r), r)
  {
    hide Flatten4, EncodeTail, U16, EncodeLists, U16At;
    var s := Encode(r);
    var p := |r.pairwise|;
    assert s[0..] == s;
    Peel(s, 0, U16(1), r.group + (U16(p) + EncodeLists(r)));
    Peel(s, 2, r.group, U16(p) + EncodeLists(r));
    Peel(s, 6, U16(p), EncodeLists(r));
    U16Slice(s, 0, 1);
    U16Slice(s, 6, p);
    ListsAreLaidOut(s, r);
  }

  lemma ListsAreLaidOut(s: seq<byte>, r: Rsn)
    requires WellFormed(r) && |s| >= 8 && s[8..] == EncodeLists(r)
    ensures var p, a := |r.pairwise|, |r.akms|;
            && 10 + 4 * p + 4 * a <= |s|
            && s[8..8 + 4 * p] == Flatten4(r.pairwise)
            && U16At(s, 8 + 4 * p) == a && s[10 + 4 * p..10 + 4 * p + 4 * a] == Flatten4(r.akms)
            && s[10 + 4 * p + 4 * a..] == EncodeTail(r.tail)
  {
    hide Flatten4, EncodeTail, U16, U16At;
    var p, a := |r.pairwise|, |r.akms|;
    var rest := Flatten4(r.akms) + EncodeTail(r.tail);
    Peel(s, 8, Flatten4(r.pairwise), U16(a) + rest);
    Peel(s, 8 + 4 * p, U16(a), rest);
    Peel(s, 10 + 4 * p, Flatten4(r.akms), EncodeTail(r.tail));
    U16Slice(s, 8 + 4 * p, a);
  }

  /** Decoding an encoding gives the element back. */
  lemma DecodeOfEncode(r: Rsn)
    requires WellFormed(r)
    ensures Accepts(Encode(r)) && Decode(Encode(r)) == r
  {
    hide Encode, EncodeLists, Flatten4, Chunks4, EncodeTail, DecodeTail, TailFits, U16, U16At;
    EncodingIsLaidOut(r);
    ChunksOfFlatten4(r.pairwise);
    ChunksOfFlatten4(r.akms);
    TailRoundTrip(r.tail);
  }

  lemma Peel(s: seq<byte>, i: nat, part: seq<byte>, rest: seq<byte>)
    requires i <= |s| && s[i..] == part + rest
    ensures i + |part| <= |s| && s[i..i + |part|] == part && s[i + |part|..] == rest
  {
    assert forall k :: 0 <= k < |s| - i ==> s[i + k] == (part + rest)[k];
  }

  lemma U16Slice(s: seq<byte>, i: nat, n: nat)
    requires i + 2 <= |s| && n < 0x1_0000 && s[i..i + 2] == U16(n)
    ensures U16At(s, i) == n
  {
    U16RoundTrip(n);
    assert s[i] == s[i..i + 2][0] && s[i + 1] == s[i..i + 2][1];
  }

  /** Encoding a decoding gives the bytes back. */
  lemma EncodeOfDecode(s: seq<byte>)
    requires Accepts(s)
    ensures WellFormed(Decode(s)) && Encode(Decode(s)) == s
  {
    hide Flatten4, Chunks4, EncodeTail, DecodeTail, TailFits, U16, U16At;
    U16OfBytes(s, 0);
    U16OfBytes(s, 6);
    U16OfBytes(s, AkmStart(s));
    FlattenOfChunks4(s[8..AkmStart(s)]);
    FlattenOfChunks4(s[AkmStart(s) + 2..TailStart(s)]);
    TailOfBytes(s[TailStart(s)..]);
    Glue(s, 0, 2);
    Glue(s, 2, 6);
    Glue(s, 6, 8);
    Glue(s, 8, AkmStart(s));
    Glue(s, AkmStart(s), AkmStart(s) + 2);
    Glue(s, AkmStart(s) + 2, TailStart(s));
    assert s[0..] == s;
  }

  lemma Glue(s: seq<byte>, i: nat, j: nat)
    requires i <= j <= |s|
    ensures s[i..] == s[i..j] + s[j..]
  {
  }

  /** The accepted byte strings are exactly the encodings of well-formed elements. */
  lemma AcceptsExactlyEncodings(s: seq<byte>)
    ensures Accepts(s) <==> exists r: Rsn :: WellFormed(r) && Encode(r) == s
  {
    if Accepts(s) { EncodeOfDecode(s); }
    if r: Rsn :| WellFormed(r) && Encode(r) == s { DecodeOfEncode(r); }
  }

  // ---- Suite names -------------------------------------------------------

  function HexDigit(n: nat): char
    requires n < 16
  {
    "0123456789abcdef"[n]
  }

  /** bytes.hex(":") */
  function Hex(s: seq<byte>): string {
    if s == [] then ""
    else [HexDigit(s[0] / 16), HexDigit(s[0] % 16)] + (if |s| == 1 then "" else ":" + Hex(s[1..]))
  }

  function Label(kind: byte, akm: bool): string {
    if akm then
      match kind
      case 1 => "802.1X"
      case 2 => "PSK"
      case 3 => "FT-802.1X"
      case 4 => "FT-PSK"
      case 8 => "SAE"
      case 12 => "FT-SAE"
      case _ => "AKM-" + Decimal(kind)
    else
      match kind
      case 1 => "WEP-40"
      case 2 => "TKIP"
      case 4 => "CCMP-128"
      case 5 => "WEP-104"
      case 6 => "AES-128-CMAC"
      case 8 => "GCMP-128"
      case 9 => "GCMP-256"
      case _ => "CIPHER-" + Decimal(kind)
  }

  const OUI: seq<byte> := [0x00, 0x0f, 0xac]

  function SuiteName(selector: seq<byte>, akm: bool): string {
    if |selector| != 4 then Hex(selector)
    else if selector[..3] != OUI then Hex(selector)
    else Label(selector[3], akm)
  }

  function HexValue(c: char): int {
    if '0' <= c <= '9' then c as int - '0' as int
    else if 'a' <= c <= 'f' then c as int - 'a' as int + 10
    else -1
  }

  lemma {:induction false} HexStep(s: seq<byte>)
    requires s != []
    ensures |Hex(s)| == 3 * |s| - 1
    ensures 16 * HexValue(Hex(s)[0]) + HexValue(Hex(s)[1]) == s[0] as int
    ensures HexValue(Hex(s)[0]) >= 0 && HexValue(Hex(s)[1]) >= 0
    ensures |s| > 1 ==> Hex(s)[2] == ':' && Hex(s)[3..] == Hex(s[1..])
  {
    if |s| > 1 { HexStep(s[1..]); }
    HexDigitIsRead(s[0] as int / 16);
    HexDigitIsRead(s[0] as int % 16);
  }

  lemma HexDigitIsRead(n: nat)
    requires n < 16
    ensures HexValue(HexDigit(n)) == n
  {
  }

  /** Two lower-case hexadecimal digits for each byte, with colons in between. */
  lemma {:induction false} HexIsRead(s: seq<byte>, i: nat)
    requires i < |s|
    ensures |Hex(s)| == 3 * |s| - 1
    ensures HexValue(Hex(s)[3 * i]) >= 0 && HexValue(Hex(s)[3 * i + 1]) >= 0
    ensures 16 * HexValue(Hex(s)[3 * i]) + HexValue(Hex(s)[3 * i + 1]) == s[i] as int
    ensures i + 1 < |s| ==> Hex(s)[3 * i + 2] == ':'
  {
    hide Hex, HexValue;
    HexStep(s);
    if i > 0 {
      var rest := Hex(s[1..]);
      HexIsRead(s[1..], i - 1);
      assert Hex(s)[3 * i] == rest[3 * (i - 1)] && Hex(s)[3 * i + 1] == rest[3 * (i - 1) + 1];
      if i + 1 < |s| { assert Hex(s)[3 * i + 2] == rest[3 * (i - 1) + 2]; }
    }
  }

  lemma HexInjective(a: seq<byte>, b: seq<byte>)
    requires |a| == |b| && Hex(a) == Hex(b)
    ensures a == b
  {
    forall i | 0 <= i < |a| ensures a[i] == b[i] {
      HexIsRead(a, i);
      HexIsRead(b, i);
    }
  }

  predicate Tabled(kind: byte, akm: bool) {
    if akm then kind in {1, 2, 3, 4, 8, 12} else kind in {1, 2, 4, 5, 6, 8, 9}
  }

  lemma LabelInjective(a: byte, b: byte, akm: bool)
    requires Label(a, akm) == Label(b, akm)
    ensures a == b
  {
    if !Tabled(a, akm) && !Tabled(b, akm) {
      var prefix := if akm then "AKM-" else "CIPHER-";
      assert Label(a, akm)[|prefix|..] == Decimal(a) && Label(b, akm)[|prefix|..] == Decimal(b);
      DecimalInjective(a, b);
    } else if !Tabled(a, akm) {
      TabledStandsApart(a, b, akm);
    } else if !Tabled(b, akm) {
      TabledStandsApart(b, a, akm);
    }
  }

  lemma TabledStandsApart(a: byte, b: byte, akm: bool)
    requires !Tabled(a, akm) && Tabled(b, akm)
    ensures Label(a, akm) != Label(b, akm)
  {
    var prefix := if akm then "AKM-" else "CIPHER-";
    assert Label(a, akm)[0] == prefix[0] && Label(a, akm)[1] == prefix[1];
    assert Label(b, akm)[0] != prefix[0] || Label(b, akm)[1] != prefix[1];
  }

  /** For a given kind of suite, different selectors have different names. */
  lemma SuiteNameInjective(a: Selector, b: Selector, akm: bool)
    requires SuiteName(a, akm) == SuiteName(b, akm)
    ensures a == b
  {
    var vendorA, vendorB := a[..3] != OUI, b[..3] != OUI;
    if vendorA && vendorB {
      HexInjective(a, b);
    } else if !vendorA && !vendorB {
      LabelInjective(a[3], b[3], akm);
      assert a == a[..3] + [a[3]] && b == b[..3] + [b[3]];
    } else if vendorA {
      HexHasColon(a);
      LabelHasNoColon(b[3], akm);
    } else {
      HexHasColon(b);
      LabelHasNoColon(a[3], akm);
    }
  }

  /** Each name in use is that of one selector. */
  lemma CipherNames(s: Selector)
    ensures SuiteName(s, false) == "WEP-40" <==> s == [0x00, 0x0f, 0xac, 1]
    ensures SuiteName(s, false) == "TKIP" <==> s == [0x00, 0x0f, 0xac, 2]
    ensures SuiteName(s, false) == "CCMP-128" <==> s == [0x00, 0x0f, 0xac, 4]
    ensures SuiteName(s, false) == "WEP-104" <==> s == [0x00, 0x0f, 0xac, 5]
    ensures SuiteName(s, false) == "AES-128-CMAC" <==> s == [0x00, 0x0f, 0xac, 6]
    ensures SuiteName(s, false) == "GCMP-128" <==> s == [0x00, 0x0f, 0xac, 8]
    ensures SuiteName(s, false) == "GCMP-256" <==> s == [0x00, 0x0f, 0xac, 9]
  {
    NameIsOf(s, 1, false);
    NameIsOf(s, 2, false);
    NameIsOf(s, 4, false);
    NameIsOf(s, 5, false);
    NameIsOf(s, 6, false);
    NameIsOf(s, 8, false);
    NameIsOf(s, 9, false);
    hide SuiteName;
  }

  lemma AkmNames(s: Selector)
    ensures SuiteName(s, true) == "802.1X" <==> s == [0x00, 0x0f, 0xac, 1]
    ensures SuiteName(s, true) == "PSK" <==> s == [0x00, 0x0f, 0xac, 2]
    ensures SuiteName(s, true) == "FT-802.1X" <==> s == [0x00, 0x0f, 0xac, 3]
    ensures SuiteName(s, true) == "FT-PSK" <==> s == [0x00, 0x0f, 0xac, 4]
    ensures SuiteName(s, true) == "SAE" <==> s == [0x00, 0x0f, 0xac, 8]
    ensures SuiteName(s, true) == "FT-SAE" <==> s == [0x00, 0x0f, 0xac, 12]
  {
    NameIsOf(s, 1, true);
    NameIsOf(s, 2, true);
    NameIsOf(s, 3, true);
    NameIsOf(s, 4, true);
    NameIsOf(s, 8, true);
    NameIsOf(s, 12, true);
    hide SuiteName;
  }

  lemma NameIsOf(s: Selector, kind: byte, akm: bool)
    ensures SuiteName([0x00, 0x0f, 0xac, kind], akm) == Label(kind, akm)
    ensures SuiteName(s, akm) == Label(kind, akm) <==> s == [0x00, 0x0f, 0xac, kind]
  {
    var t: Selector := [0x00, 0x0f, 0xac, kind];
    assert t[..3] == OUI;
    if SuiteName(s, akm) == SuiteName(t, akm) { SuiteNameInjective(s, t, akm); }
  }

  lemma HexHasColon(s: Selector)
    ensures |Hex(s)| > 2 && Hex(s)[2] == ':'
  {
  }

  lemma LabelHasNoColon(kind: byte, akm: bool)
    ensures |Label(kind, akm)| > 2 && Label(kind, akm)[2] != ':'
  {
  }

  function Names(ss: seq<Selector>, akm: bool): (names: seq<string>)
    ensures |names| == |ss| && forall i :: 0 <= i < |ss| ==> names[i] == SuiteName(ss[i], akm)
  {
    seq(|ss|, i requires 0 <= i < |ss| => SuiteName(ss[i], akm))
  }
}

/** The RSN parser (ProtocolEvidenceService._parse_rsn), which walks an offset through the element body. */
module RsnParser {
  import opened Wrappers
  import opened RsnFormat

  datatype Parsed = Parsed(group: Option<string>, pairwise: seq<string>, akms: seq<string>, valid: bool)

  /** What the parser reports: as much of the suites as could be located, and whether the whole body is
      one well-formed element. */
  function Report(s: seq<byte>): Parsed {
    if |s| < 8 || U16At(s, 0) != 1 then Parsed(None, [], [], false)
    else
      var group := Some(SuiteName(s[2..6], false));
      if !PairwiseFits(s) then Parsed(group, [], [], false)
      else
        var pairwise := Names(Chunks4(s[8..AkmStart(s)]), false);
        if !SuitesFit(s) then Parsed(group, pairwise, [], false)
        else
          Parsed(group, pairwise, Names(Chunks4(s[AkmStart(s) + 2..TailStart(s)]), true), TailFits(s[TailStart(s)..]))
  }

  lemma {:induction false} ChunkAt(s: seq<byte>, i: nat)
    requires |s| % 4 == 0 && 4 * i + 4 <= |s|
    ensures Chunks4(s)[i] == s[4 * i..4 * i + 4]
  {
    if i > 0 {
      ChunkAt(s[4..], i - 1);
      assert s[4..][4 * (i - 1)..4 * (i - 1) + 4] == s[4 * i..4 * i + 4];
    }
  }

  lemma SliceOfSlice(s: seq<byte>, offset: nat, n: nat, a: nat, b: nat)
    requires a <= b <= n && offset + n <= |s|
    ensures s[offset..offset + n][a..b] == s[offset + a..offset + b]
  {
    var inner, outer := s[offset..offset + n][a..b], s[offset + a..offset + b];
    assert |inner| == |outer| && forall k :: 0 <= k < |inner| ==> inner[k] == outer[k];
  }

  lemma ChunkOfSlice(s: seq<byte>, offset: nat, count: nat, i: nat)
    requires offset + 4 * count <= |s| && i < count
    ensures Chunks4(s[offset..offset + 4 * count])[i] == s[offset + i * 4..offset + (i + 1) * 4]
  {
    var slice := s[offset..offset + 4 * count];
    ChunkAt(slice, i);
    SliceOfSlice(s, offset, 4 * count, 4 * i, 4 * i + 4);
    assert 4 * i == i * 4;
  }

  /** The names of `count` consecutive selectors from `offset` on. */
  method SuiteNames(s: seq<byte>, offset: nat, count: nat, akm: bool) returns (names: seq<string>)
    requires offset + 4 * count <= |s|
    ensures names == Names(Chunks4(s[offset..offset + 4 * count]), akm)
  {
    hide Chunks4, SuiteName, Names;
    names := [];
    ghost var chunks := Chunks4(s[offset..offset + 4 * count]);
    for index := 0 to count
      invariant |names| == index
      invariant forall i :: 0 <= i < index ==> names[i] == SuiteName(chunks[i], akm)
    {
      ChunkOfSlice(s, offset, count, index);
      names := names + [SuiteName(s[offset + index * 4..offset + (index + 1) * 4], akm)];
    }
  }

  method ParseRsn(body: seq<byte>) returns (r: Parsed)
    ensures r == Report(body)
    ensures r.valid <==> exists e: Rsn :: WellFormed(e) && Encode(e) == body
  {
    AcceptsExactlyEncodings(body);
    hide Encode, WellFormed, Chunks4, Names, SuiteName;
    if |body| < 8 {
      return Parsed(None, [], [], false);
    }
    var version := U16At(body, 0);
    if version != 1 {
      return Parsed(None, [], [], false);
    }
    var offset := 2;
    var group := Some(SuiteName(body[offset..offset + 4], false));
    offset := offset + 4;
    var pairwiseCount := U16At(body, offset);
    offset := offset + 2;
    if pairwiseCount < 1 || |body| < offset + pairwiseCount * 4 + 2 {
      return Parsed(group, [], [], false);
    }
    var pairwise := SuiteNames(body, offset, pairwiseCount, false);
    offset := offset + pairwiseCount * 4;
    var akmCount := U16At(body, offset);
    offset := offset + 2;
    if akmCount < 1 || |body| < offset + akmCount * 4 {
      return Parsed(group, pairwise, [], false);
    }
    var akms := SuiteNames(body, offset, akmCount, true);
    offset := offset + akmCount * 4;
    ghost var tail := body[offset..];
    var remaining := |body| - offset;
    if remaining == 0 {
      return Parsed(group, pairwise, akms, true);
    }
    if remaining < 2 {
      return Parsed(group, pairwise, akms, false);
    }
    offset := offset + 2;
    if offset == |body| {
      return Parsed(group, pairwise, akms, true);
    }
    if |body| - offset < 2 {
      return Parsed(group, pairwise, akms, false);
    }
    var pmkidCount := U16At(body, offset);
    assert U16At(tail, 2) == pmkidCount;
    offset := offset + 2 + pmkidCount * 16;
    if offset > |body| {
      return Parsed(group, pairwise, akms, false);
    }
    remaining := |body| - offset;
    return Parsed(group, pairwise, akms, remaining == 0 || remaining == 4);
  }

  /** A well-formed element is reported valid with the names of exactly its own suites. */
  lemma ReportOfEncoding(e: Rsn)
    requires WellFormed(e)
    ensures Report(Encode(e)) == Parsed(Some(SuiteName(e.group, false)), Names(e.pairwise, false), Names(e.akms, true), true)
  {
    hide Encode, Chunks4, EncodeTail, DecodeTail, SuiteName, U16At;
    DecodeOfEncode(e);
  }

  /** Two elements reported alike, both valid, list the same suites: names do not hide a difference. */
  lemma ReportDeterminesSuites(d: Rsn, e: Rsn)
    requires WellFormed(d) && WellFormed(e) && Report(Encode(d)) == Report(Encode(e))
    ensures d.group == e.group && d.pairwise == e.pairwise && d.akms == e.akms
  {
    hide Encode, Report, SuiteName;
    ReportOfEncoding(d);
    ReportOfEncoding(e);
    SuiteNameInjective(d.group, e.group, false);
    NamesInjective(d.pairwise, e.pairwise, false);
    NamesInjective(d.akms, e.akms, true);
  }

  lemma NamesInjective(a: seq<Selector>, b: seq<Selector>, akm: bool)
    requires Names(a, akm) == Names(b, akm)
    ensures a == b
  {
    hide SuiteName;
    assert |a| == |Names(a, akm)| == |Names(b, akm)| == |b|;
    forall i | 0 <= i < |a| ensures a[i] == b[i] {
      assert Names(a, akm)[i] == Names(b, akm)[i];
      SuiteNameInjective(a[i], b[i], akm);
    }
  }
}

/** The walk over a beacon's information elements (ProtocolEvidenceService._beacon_details). */
module BeaconElements {
  import opened Wrappers
  import opened RsnFormat
  import opened RsnParser

  datatype Element = Element(id: byte, info: seq<byte>)

  /** What the walk collects. The network name is kept as raw bytes. */
  datatype Details = Details(ssid: Option<seq<byte>>, channel: Option<byte>, hasRsn: bool, rsn: Parsed)

  predicate Fits(e: Element) {
    |e.info| < 256
  }

  function EncodeElement(e: Element): seq<byte>
    requires Fits(e)
  {
    [e.id, |e.info|] + e.info
  }

  function EncodeElements(es: seq<Element>): seq<byte>
    requires forall e :: e in es ==> Fits(e)
  {
    if es == [] then [] else EncodeElement(es[0]) + EncodeElements(es[1..])
  }

  /** Bytes in which no complete element starts. */
  predicate Incomplete(s: seq<byte>) {
    |s| < 2 || |s| - 2 < s[1]
  }

  /** The bytes are these complete elements followed by an incomplete rest. */
  ghost predicate Splits(raw: seq<byte>, es: seq<Element>, rest: seq<byte>) {
    (forall e :: e in es ==> Fits(e)) && raw == EncodeElements(es) + rest && Incomplete(rest)
  }

  /** Any byte string splits in at most one way. */
  lemma {:induction false} SplitIsUnique(raw: seq<byte>, es: seq<Element>, rest: seq<byte>, es': seq<Element>,
                                         rest': seq<byte>)
    requires Splits(raw, es, rest) && Splits(raw, es', rest')
    ensures es == es' && rest == rest'
    decreases |es|
  {
    if es != [] && es' != [] {
      FirstElement(raw, es, rest);
      FirstElement(raw, es', rest');
      SplitIsUnique(raw[2 + |es[0].info|..], es[1..], rest, es'[1..], rest');
      assert es == [es[0]] + es[1..] && es' == [es'[0]] + es'[1..];
    } else if es != [] {
      FirstElement(raw, es, rest);
    } else if es' != [] {
      FirstElement(raw, es', rest');
    } else {
      EncodeNothing();
      assert rest == [] + rest == raw && rest' == [] + rest' == raw;
    }
  }

  lemma FirstElement(raw: seq<byte>, es: seq<Element>, rest: seq<byte>)
    requires Splits(raw, es, rest) && es != []
    ensures |raw| >= 2 + |es[0].info| && raw[0] == es[0].id && raw[1] == |es[0].info|
    ensures raw[2..2 + |es[0].info|] == es[0].info
    ensures Splits(raw[2 + |es[0].info|..], es[1..], rest)
    ensures !Incomplete(raw)
  {
    assert es[0] in es;
    assert raw == EncodeElement(es[0]) + (EncodeElements(es[1..]) + rest);
  }

  /** The complete elements of the bytes, and what is left. */
  function Split(raw: seq<byte>): (seq<Element>, seq<byte>) {
    if Incomplete(raw) then ([], raw)
    else
      var end := 2 + raw[1] as nat;
      var (es, rest) := Split(raw[end..]);
      ([Element(raw[0], raw[2..end])] + es, rest)
  }

  lemma {:induction false} SplitSplits(raw: seq<byte>)
    ensures Splits(raw, Split(raw).0, Split(raw).1)
  {
    if Incomplete(raw) {
      EncodeNothing();
      assert [] + raw == raw;
    } else {
      var end := 2 + raw[1] as nat;
      var tail := raw[end..];
      SplitSplits(tail);
      var es, rest, e := Split(tail).0, Split(tail).1, Element(raw[0], raw[2..end]);
      assert ([e] + es)[1..] == es;
      assert raw == EncodeElement(e) + tail == EncodeElement(e) + EncodeElements(es) + rest;
    }
  }

  lemma EncodeNothing()
    ensures EncodeElements([]) == []
  {
  }

  lemma {:induction false} EncodeAppend(es: seq<Element>, e: Element)
    requires (forall d :: d in es ==> Fits(d)) && Fits(e)
    ensures EncodeElements(es + [e]) == EncodeElements(es) + EncodeElement(e)
  {
    if es == [] {
      assert es + [e] == [e];
      assert EncodeElements([e]) == EncodeElement(e) + [];
    } else {
      EncodeAppend(es[1..], e);
      assert (es + [e])[1..] == es[1..] + [e];
    }
  }

  /** The content of the last element with this id, if there is one. */
  function Last(es: seq<Element>, id: byte): Option<seq<byte>> {
    if es == [] then None
    else if es[|es| - 1].id == id then Some(es[|es| - 1].info)
    else Last(es[..|es| - 1], id)
  }

  /** The first byte of the last non-empty channel element. */
  function LastChannel(es: seq<Element>): Option<byte> {
    if es == [] then None
    else if es[|es| - 1].id == 3 && es[|es| - 1].info != [] then Some(es[|es| - 1].info[0])
    else LastChannel(es[..|es| - 1])
  }

  function LastRsn(es: seq<Element>): Parsed {
    match Last(es, 48)
    case None => Parsed(None, [], [], false)
    case Some(info) => Report(info)
  }

  /** What a beacon says: the last complete element of each kind, and a truncated RSN element spoils the
      validity of the RSN information but not the suites read before it. */
  function Summary(es: seq<Element>, rest: seq<byte>): Details {
    var truncatedRsn := |rest| >= 2 && rest[0] == 48;
    var rsn := LastRsn(es);
    Details(Last(es, 0), LastChannel(es), Last(es, 48).Some? || truncatedRsn,
            if truncatedRsn then rsn.(valid := false) else rsn)
  }

  lemma SummaryOfOneMore(es: seq<Element>, e: Element)
    ensures var d := Summary(es, []);
            Summary(es + [e], []) ==
              if e.id == 0 then d.(ssid := Some(e.info))
              else if e.id == 3 && e.info != [] then d.(channel := Some(e.info[0]))
              else if e.id == 48 then d.(hasRsn := true, rsn := Report(e.info))
              else d
  {
    hide Report;
    assert (es + [e])[..|es|] == es;
  }

  lemma SummaryOfRest(es: seq<Element>, rest: seq<byte>)
    ensures var d := Summary(es, []);
            Summary(es, rest) == if |rest| >= 2 && rest[0] == 48 then d.(hasRsn := true, rsn := d.rsn.(valid := false)) else d
  {
  }

  lemma SummaryOfNothing()
    ensures Summary([], []) == Details(None, None, false, Parsed(None, [], [], false))
  {
  }

  /** One step of the walk: the next complete element belongs to the bytes read. */
  lemma ElementRead(raw: seq<byte>, offset: nat, es: seq<Element>, e: Element)
    requires offset + 2 <= |raw| && (forall d :: d in es ==> Fits(d)) && raw[..offset] == EncodeElements(es)
    requires var length: nat := raw[offset + 1];
             offset + 2 + length <= |raw| && e == Element(raw[offset], raw[offset + 2..offset + 2 + length])
    ensures Fits(e) && raw[..offset + 2 + |e.info|] == EncodeElements(es + [e])
  {
    EncodeAppend(es, e);
    hide EncodeElements;
    assert raw[..offset + 2 + |e.info|] == raw[..offset] + EncodeElement(e);
  }

  /** What the walk reports of any bytes: what their complete elements and the rest say. */
  function Walk(raw: seq<byte>): Details {
    Summary(Split(raw).0, Split(raw).1)
  }

  method WalkElements(raw: seq<byte>) returns (details: Details)
    ensures details == Walk(raw)
  {
    ghost var es, rest;
    details, es, rest := WalkAll(raw);
    SplitSplits(raw);
    SplitIsUnique(raw, es, rest, Split(raw).0, Split(raw).1);
  }

  method WalkAll(raw: seq<byte>) returns (details: Details, ghost es: seq<Element>, ghost rest: seq<byte>)
    ensures Splits(raw, es, rest)
    ensures details == Summary(es, rest)
  {
    hide Report, Summary, EncodeElements, EncodeElement, SuiteName, Accepts;
    var ssid: Option<seq<byte>>, channel: Option<byte> := None, None;
    var hasRsn, rsn := false, Parsed(None, [], [], false);
    var offset := 0;
    es := [];
    SummaryOfNothing();
    assert EncodeElements([]) == raw[..0] by { EncodeNothing(); }
    while offset + 2 <= |raw|
      invariant 0 <= offset <= |raw|
      invariant (forall e :: e in es ==> Fits(e)) && raw[..offset] == EncodeElements(es)
      invariant Details(ssid, channel, hasRsn, rsn) == Summary(es, [])
    {
      var id, length: nat := raw[offset], raw[offset + 1];
      var start := offset + 2;
      var end := start + length;
      if id == 48 { hasRsn := true; }
      if end > |raw| {
        if id == 48 { rsn := rsn.(valid := false); }
        break;
      }
      var info := raw[start..end];
      ghost var e := Element(id, info);
      if id == 0 {
        ssid := Some(info);
      } else if id == 3 && info != [] {
        channel := Some(info[0]);
      } else if id == 48 {
        rsn := ParseRsn(info);
      }
      ElementRead(raw, offset, es, e);
      SummaryOfOneMore(es, e);
      es := es + [e];
      offset := end;
    }
    rest := raw[offset..];
    assert raw == raw[..offset] + rest;
    SummaryOfRest(es, rest);
    details := Details(ssid, channel, hasRsn, rsn);
  }

  predicate IsLast(es: seq<Element>, i: nat, id: byte) {
    i < |es| && es[i].id == id && forall j :: i < j < |es| ==> es[j].id != id
  }

  lemma {:induction false} LastExactly(es: seq<Element>, id: byte, info: seq<byte>)
    ensures Last(es, id) == Some(info) <==> exists i: nat :: IsLast(es, i, id) && es[i].info == info
  {
    if es != [] {
      var front := es[..|es| - 1];
      LastExactly(front, id, info);
      if es[|es| - 1].id == id {
        assert IsLast(es, |es| - 1, id);
      } else {
        if i: nat :| IsLast(front, i, id) && front[i].info == info { assert IsLast(es, i, id); }
        if i: nat :| IsLast(es, i, id) && es[i].info == info { assert IsLast(front, i, id); }
      }
    }
  }

  /** The last element with id 0 is the SSID and the last with id 48 the RSN element; the channel is in an element
      with id 3. A truncated RSN element at the end counts as one, but makes the RSN invalid. */
  lemma SummaryMeans(es: seq<Element>, rest: seq<byte>)
    ensures var d := Summary(es, rest);
            && (forall info :: d.ssid == Some(info) <==> exists i: nat :: IsLast(es, i, 0) && es[i].info == info)
            && (d.hasRsn <==> (exists i: nat :: IsLast(es, i, 48)) || (|rest| >= 2 && rest[0] == 48))
            && (d.rsn.valid ==> !(|rest| >= 2 && rest[0] == 48))
            && forall i: nat :: IsLast(es, i, 48) ==>
                 && d.rsn.group == Report(es[i].info).group && d.rsn.pairwise == Report(es[i].info).pairwise
                 && d.rsn.akms == Report(es[i].info).akms
                 && (d.rsn.valid <==> Report(es[i].info).valid && !(|rest| >= 2 && rest[0] == 48))
  {
    hide Report, Last;
    forall info ensures Summary(es, rest).ssid == Some(info) <==> exists i: nat :: IsLast(es, i, 0) && es[i].info == info {
      LastExactly(es, 0, info);
    }
    if Last(es, 48).Some? { LastExactly(es, 48, Last(es, 48).value); }
    forall i: nat | IsLast(es, i, 48) ensures Last(es, 48) == Some(es[i].info) { LastExactly(es, 48, es[i].info); }
  }

  /** The channel is the first byte of the last element with id 3 that has one. */
  lemma {:induction false} ChannelMeans(es: seq<Element>, channel: byte)
    ensures LastChannel(es) == Some(channel) <==>
            exists i :: 0 <= i < |es| && es[i].id == 3 && es[i].info != [] && es[i].info[0] == channel
                        && forall j :: i < j < |es| ==> es[j].id != 3 || es[j].info == []
  {
    if es != [] { ChannelMeans(es[..|es| - 1], channel); }
  }

  /** Walking encoded elements reports exactly those elements, whatever incomplete bytes follow. */
  lemma WalkOfEncoding(es: seq<Element>, rest: seq<byte>)
    requires (forall e :: e in es ==> Fits(e)) && Incomplete(rest)
    ensures Walk(EncodeElements(es) + rest) == Summary(es, rest)
  {
    var raw := EncodeElements(es) + rest;
    SplitSplits(raw);
    SplitIsUnique(raw, es, rest, Split(raw).0, Split(raw).1);
  }

  /** And every byte string is such an encoding. */
  lemma WalkOfAny(raw: seq<byte>)
    ensures exists es: seq<Element>, rest: seq<byte> :: Splits(raw, es, rest) && Walk(raw) == Summary(es, rest)
  {
    SplitSplits(raw);
  }
}
