/** The manifest's string encoder: UTF-8 in, ASCII JSON out (experiment/ace_manifest.c). */
module JsonString {
  import opened Wrappers

  const QUOTE := 0x22
  const BACKSLASH := 0x5c
  const LETTER_U := 0x75

  // ----- UTF-8, from section 3 of RFC 3629

  /** A code point that can occur in a C string: a Unicode scalar value other than NUL. */
  predicate Scalar(cp: nat) {
    0 < cp <= 0x10ffff && !(0xd800 <= cp <= 0xdfff)
  }

  function Encode1(cp: nat): (b: seq<Octet>)
    requires Scalar(cp)
    ensures 1 <= |b| <= 4
  {
    if cp < 0x80 then [cp]
    else if cp < 0x800 then [0xc0 + cp / 64, 0x80 + cp % 64]
    else if cp < 0x1_0000 then [0xe0 + cp / 4096, 0x80 + cp / 64 % 64, 0x80 + cp % 64]
    else [0xf0 + cp / 0x4_0000, 0x80 + cp / 4096 % 64, 0x80 + cp / 64 % 64, 0x80 + cp % 64]
  }

  predicate Scalars(cps: seq<nat>) {
    forall i | 0 <= i < |cps| :: Scalar(cps[i])
  }

  function Utf8(cps: seq<nat>): (b: seq<Octet>)
    requires Scalars(cps)
  {
    if cps == [] then [] else Encode1(cps[0]) + Utf8(cps[1..])
  }

  // ----- the encoder's reader

  /** The octet at `p`; the terminator follows the last one. */
  function At(s: seq<Octet>, p: nat): Octet
    requires p <= |s|
  {
    if p < |s| then s[p] else 0
  }

  /** How many continuation octets a lead octet announces; 4 stands for an invalid lead. */
  function Continuations(lead: Octet): (n: nat) {
    if 0xc2 <= lead <= 0xdf then 1 else if 0xe0 <= lead <= 0xef then 2 else if 0xf0 <= lead <= 0xf4 then 3 else 4
  }

  function LeadBits(lead: Octet): nat
    requires Continuations(lead) <= 3
  {
    if lead <= 0xdf then lead - 0xc0 else if lead <= 0xef then lead - 0xe0 else lead - 0xf0
  }

  /** The value after `n` more continuation octets, or nothing at the first that is none. */
  function Accumulate(s: seq<Octet>, p: nat, cp: nat, n: nat): (r: Option<nat>)
    requires p <= |s|
    decreases n
  {
    if n == 0 then Some(cp)
    else if !(0x80 <= At(s, p) < 0xc0) then None
    else Accumulate(s, p + 1, cp * 64 + (s[p] - 0x80), n - 1)
  }

  /** Too short a value for its length, out of range, or a surrogate. */
  predicate Malformed(cp: nat, n: nat) {
    || (n == 1 && cp < 0x80) || (n == 2 && cp < 0x800) || (n == 3 && cp < 0x1_0000)
    || cp > 0x10ffff || 0xd800 <= cp <= 0xdfff
  }

  /** The code point at the front of `s`. */
  function First(s: seq<Octet>): (r: Option<nat>)
    requires s != []
  {
    if s[0] < 0x80 then Some(s[0])
    else if Continuations(s[0]) > 3 then None
    else
      var cp := Accumulate(s, 1, LeadBits(s[0]), Continuations(s[0]));
      if cp.None? || Malformed(cp.value, Continuations(s[0])) then None else cp
  }

  predicate CString(s: seq<Octet>) {
    forall i | 0 <= i < |s| :: s[i] != 0
  }

  predicate Tail(s: seq<Octet>, p: nat) {
    p < |s| && 0x80 <= s[p] < 0xc0
  }

  /** The payload of a continuation octet. */
  function Low6(s: seq<Octet>, p: nat): (n: nat)
    requires Tail(s, p)
    ensures n < 64
  {
    s[p] - 0x80
  }

  // The reader unrolled, one lemma per length.

  lemma First2(s: seq<Octet>)
    requires s != [] && 0xc2 <= s[0] <= 0xdf
    ensures First(s).Some? <==> Tail(s, 1)
    ensures First(s).Some? ==> First(s).value == LeadBits(s[0]) * 64 + Low6(s, 1)
  {
    assert Accumulate(s, 1, LeadBits(s[0]), 1) == if Tail(s, 1) then Accumulate(s, 2, LeadBits(s[0]) * 64 + Low6(s, 1), 0) else None;
  }

  lemma First3(s: seq<Octet>)
    requires s != [] && 0xe0 <= s[0] <= 0xef
    ensures First(s).Some? ==> Tail(s, 1) && Tail(s, 2)
    ensures Tail(s, 1) && Tail(s, 2) ==>
              var cp := (LeadBits(s[0]) * 64 + Low6(s, 1)) * 64 + Low6(s, 2);
              First(s) == if cp < 0x800 || 0xd800 <= cp <= 0xdfff then None else Some(cp)
  {
    var a := LeadBits(s[0]);
    assert Accumulate(s, 1, a, 2) == if Tail(s, 1) then Accumulate(s, 2, a * 64 + Low6(s, 1), 1) else None;
    if Tail(s, 1) {
      var b := a * 64 + Low6(s, 1);
      assert Accumulate(s, 2, b, 1) == if Tail(s, 2) then Accumulate(s, 3, b * 64 + Low6(s, 2), 0) else None;
    }
  }

  lemma First4(s: seq<Octet>)
    requires s != [] && 0xf0 <= s[0] <= 0xf4
    ensures First(s).Some? ==> Tail(s, 1) && Tail(s, 2) && Tail(s, 3)
    ensures Tail(s, 1) && Tail(s, 2) && Tail(s, 3) ==>
              var cp := ((LeadBits(s[0]) * 64 + Low6(s, 1)) * 64 + Low6(s, 2)) * 64 + Low6(s, 3);
              First(s) == if cp < 0x1_0000 || cp > 0x10ffff then None else Some(cp)
  {
    var a := LeadBits(s[0]);
    assert Accumulate(s, 1, a, 3) == if Tail(s, 1) then Accumulate(s, 2, a * 64 + Low6(s, 1), 2) else None;
    if Tail(s, 1) {
      var b := a * 64 + Low6(s, 1);
      assert Accumulate(s, 2, b, 2) == if Tail(s, 2) then Accumulate(s, 3, b * 64 + Low6(s, 2), 1) else None;
      if Tail(s, 2) {
        var c := b * 64 + Low6(s, 2);
        assert Accumulate(s, 3, c, 1) == if Tail(s, 3) then Accumulate(s, 4, c * 64 + Low6(s, 3), 0) else None;
      }
    }
  }

  lemma Sextets(hi: nat, lo: nat)
    requires lo < 64
    ensures (hi * 64 + lo) / 64 == hi && (hi * 64 + lo) % 64 == lo
  {
  }

  lemma Split(cp: nat)
    ensures cp == cp / 64 * 64 + cp % 64
    ensures cp / 4096 == cp / 64 / 64 && cp / 0x4_0000 == cp / 4096 / 64
  {
  }

  /** Whatever the reader takes is the encoding of what it reports ... */
  lemma FirstIsSound(s: seq<Octet>)
    requires s != [] && CString(s) && First(s).Some?
    ensures Scalar(First(s).value)
    ensures Encode1(First(s).value) <= s
  {
    if s[0] >= 0x80 {
      match Continuations(s[0])
      case 1 => Sound2(s);
      case 2 => Sound3(s);
      case 3 => Sound4(s);
      case _ =>
    }
  }

  lemma Sound2(s: seq<Octet>)
    requires s != [] && First(s).Some? && 0xc2 <= s[0] <= 0xdf
    ensures Scalar(First(s).value) && Encode1(First(s).value) <= s
  {
    First2(s);
    Sextets(LeadBits(s[0]), Low6(s, 1));
    assert Encode1(First(s).value) == [s[0], s[1]];
  }

  lemma Sound3(s: seq<Octet>)
    requires s != [] && First(s).Some? && 0xe0 <= s[0] <= 0xef
    ensures Scalar(First(s).value) && Encode1(First(s).value) <= s
  {
    First3(s);
    Sextets(LeadBits(s[0]), Low6(s, 1));
    Sextets(LeadBits(s[0]) * 64 + Low6(s, 1), Low6(s, 2));
    Split(First(s).value);
    assert Encode1(First(s).value) == [s[0], s[1], s[2]];
  }

  lemma Sound4(s: seq<Octet>)
    requires s != [] && First(s).Some? && 0xf0 <= s[0] <= 0xf4
    ensures Scalar(First(s).value) && Encode1(First(s).value) <= s
  {
    First4(s);
    var a := LeadBits(s[0]);
    var b := a * 64 + Low6(s, 1);
    var c := b * 64 + Low6(s, 2);
    Sextets(a, Low6(s, 1));
    Sextets(b, Low6(s, 2));
    Sextets(c, Low6(s, 3));
    Split(First(s).value);
    assert Encode1(First(s).value) == [s[0], s[1], s[2], s[3]];
  }

  /** ... and it takes every encoding. */
  lemma FirstIsComplete(cp: nat, s: seq<Octet>)
    requires Scalar(cp) && Encode1(cp) <= s
    ensures First(s) == Some(cp)
  {
    var e := Encode1(cp);
    Split(cp);
    Split(cp / 64);
    assert s[0] == e[0] && (|e| > 1 ==> s[1] == e[1]) && (|e| > 2 ==> s[2] == e[2]) && (|e| > 3 ==> s[3] == e[3]);
    if 0x80 <= cp < 0x800 {
      First2(s);
    } else if 0x800 <= cp < 0x1_0000 {
      First3(s);
    } else if cp >= 0x1_0000 {
      Split(cp / 4096);
      First4(s);
    }
  }

  /** More code points behind those already read. */
  function Prefix(cps: seq<nat>, more: Option<seq<nat>>): (r: Option<seq<nat>>) {
    if more.None? then None else Some(cps + more.value)
  }

  lemma PrefixTwice(a: seq<nat>, b: seq<nat>, more: Option<seq<nat>>)
    ensures Prefix(a, Prefix(b, more)) == Prefix(a + b, more)
  {
    assert more.Some? ==> a + (b + more.value) == a + b + more.value;
  }

  /** All code points of a string, or nothing if it is not UTF-8. */
  function Parse(s: seq<Octet>): (r: Option<seq<nat>>)
    decreases |s|
  {
    if s == [] then Some([])
    else
      var cp := First(s);
      if cp.None? || !Scalar(cp.value) || |Encode1(cp.value)| > |s| then None
      else Prefix([cp.value], Parse(s[|Encode1(cp.value)|..]))
  }

  /** Reading past one encoded code point. */
  lemma ParseStep(cp: nat, s: seq<Octet>, rest: seq<Octet>)
    requires Scalar(cp) && s == Encode1(cp) + rest
    ensures Parse(s) == Prefix([cp], Parse(rest))
  {
    FirstIsComplete(cp, s);
    assert s[|Encode1(cp)|..] == rest;
  }

  lemma {:induction false} ParseOfUtf8(cps: seq<nat>)
    requires Scalars(cps)
    ensures Parse(Utf8(cps)) == Some(cps)
    decreases |cps|
  {
    if cps != [] {
      ParseStep(cps[0], Utf8(cps), Utf8(cps[1..]));
      ParseOfUtf8(cps[1..]);
      assert cps == [cps[0]] + cps[1..];
    }
  }

  lemma Utf8Cons(cp: nat, cps: seq<nat>)
    requires Scalar(cp) && Scalars(cps)
    ensures Scalars([cp] + cps) && Utf8([cp] + cps) == Encode1(cp) + Utf8(cps)
  {
    assert ([cp] + cps)[1..] == cps;
  }

  lemma ParseCons(s: seq<Octet>) returns (cp: nat, rest: seq<Octet>)
    requires s != [] && CString(s) && Parse(s).Some?
    ensures Scalar(cp) && s == Encode1(cp) + rest && CString(rest) && |rest| < |s|
    ensures Parse(s) == Prefix([cp], Parse(rest))
  {
    FirstIsSound(s);
    cp := First(s).value;
    rest := s[|Encode1(cp)|..];
  }

  lemma {:induction false} ParseIsUtf8(s: seq<Octet>)
    requires CString(s) && Parse(s).Some?
    ensures Scalars(Parse(s).value) && Utf8(Parse(s).value) == s
    decreases |s|
  {
    if s != [] {
      var cp, rest := ParseCons(s);
      ParseIsUtf8(rest);
      Utf8Cons(cp, Parse(rest).value);
    }
  }

  /** The reader accepts exactly well-formed UTF-8. */
  lemma ParseExactlyUtf8(s: seq<Octet>)
    requires CString(s)
    ensures Parse(s).Some? <==> exists cps :: Scalars(cps) && Utf8(cps) == s
  {
    if Parse(s).Some? {
      ParseIsUtf8(s);
    }
    forall cps | Scalars(cps) && Utf8(cps) == s
      ensures Parse(s).Some?
    {
      ParseOfUtf8(cps);
    }
  }

  // ----- the encoder's writer

  function HexDigit(n: nat): Octet
    requires n < 16
  {
    if n < 10 then 0x30 + n else 0x61 + n - 10
  }

  /** A backslash, a u and four hexadecimal digits. */
  function Hex4(n: nat): (b: seq<Octet>)
    requires n < 0x1_0000
    ensures |b| == 6
  {
    [BACKSLASH, LETTER_U, HexDigit(n / 4096), HexDigit(n / 256 % 16), HexDigit(n / 16 % 16), HexDigit(n % 16)]
  }

  function Escape(cp: nat): (b: seq<Octet>)
    requires Scalar(cp)
    ensures forall i | 0 <= i < |b| :: b[i] < 0x80
  {
    if cp == QUOTE || cp == BACKSLASH then [BACKSLASH, cp]
    else if cp < 0x20 then Hex4(cp)
    else if cp < 0x80 then [cp]
    else if cp <= 0xffff then Hex4(cp)
    else Hex4(0xd800 + (cp - 0x1_0000) / 0x400) + Hex4(0xdc00 + (cp - 0x1_0000) % 0x400)
  }

  function Escapes(cps: seq<nat>): (b: seq<Octet>)
    requires Scalars(cps)
    ensures forall i | 0 <= i < |b| :: b[i] < 0x80
  {
    if cps == [] then [] else Escape(cps[0]) + Escapes(cps[1..])
  }

  lemma {:induction false} EscapesGrow(cps: seq<nat>, cp: nat)
    requires Scalars(cps) && Scalar(cp)
    ensures Escapes(cps + [cp]) == Escapes(cps) + Escape(cp)
    decreases |cps|
  {
    if cps == [] {
      assert cps + [cp] == [cp];
    } else {
      assert (cps + [cp])[1..] == cps[1..] + [cp];
      EscapesGrow(cps[1..], cp);
    }
  }

  /** One turn of the reading loop: the code point at `p` and the place after it.  The
      cursor never passes the terminator. */
  method ReadOne(s: seq<Octet>, p: nat) returns (r: Option<nat>, next: nat)
    requires p < |s|
    ensures r == First(s[p..])
    ensures r.Some? ==> next == p + (if s[p] < 0x80 then 1 else 1 + Continuations(s[p])) && next <= |s|
  {
    next := p + 1;
    if s[p] < 0x80 {
      return Some(s[p]), next;
    }
    var n := Continuations(s[p]);
    if n > 3 {
      return None, next;
    }
    var cp: nat := LeadBits(s[p]);
    AccumulateShift(s, p, 1, cp, n);
    ghost var bits := cp;
    for i := 0 to n
      invariant next == p + 1 + i <= |s|
      invariant Accumulate(s, p + 1, bits, n) == Accumulate(s, next, cp, n - i)
    {
      if !(0x80 <= At(s, next) < 0xc0) {
        return None, next;
      }
      cp := cp * 64 + (s[next] - 0x80);
      next := next + 1;
    }
    if Malformed(cp, n) {
      return None, next;
    }
    return Some(cp), next;
  }

  /** The code points read so far, and what the rest of the string still decides. */
  predicate ReadSoFar(s: seq<Octet>, p: nat, cps: seq<nat>)
    requires p <= |s|
  {
    Scalars(cps) && Parse(s) == Prefix(cps, Parse(s[p..]))
  }

  lemma ReadNothing(s: seq<Octet>)
    ensures ReadSoFar(s, 0, [])
  {
    assert s[0..] == s;
    assert Parse(s).Some? ==> [] + Parse(s).value == Parse(s).value;
  }

  /** What one turn of the reading loop passes is one encoded code point. */
  lemma PassesOne(s: seq<Octet>, p: nat, cp: nat, next: nat)
    requires p < |s| && CString(s) && First(s[p..]) == Some(cp)
    requires next == p + (if s[p] < 0x80 then 1 else 1 + Continuations(s[p])) && next <= |s|
    ensures Scalar(cp) && s[p..] == Encode1(cp) + s[next..]
  {
    FirstIsSound(s[p..]);
    EncodedLength(cp, s[p..]);
  }

  lemma ReadMore(s: seq<Octet>, p: nat, cp: nat, next: nat, cps: seq<nat>)
    requires p < |s| && CString(s) && First(s[p..]) == Some(cp) && ReadSoFar(s, p, cps)
    requires next == p + (if s[p] < 0x80 then 1 else 1 + Continuations(s[p])) && next <= |s|
    ensures Scalar(cp) && ReadSoFar(s, next, cps + [cp])
  {
    PassesOne(s, p, cp, next);
    ParseStep(cp, s[p..], s[next..]);
    PrefixTwice(cps, [cp], Parse(s[next..]));
  }

  lemma ReadAll(s: seq<Octet>, cps: seq<nat>)
    requires ReadSoFar(s, |s|, cps)
    ensures Parse(s) == Some(cps)
  {
    assert s[|s|..] == [] && cps + [] == cps;
  }

  lemma ReadFailed(s: seq<Octet>, p: nat, cps: seq<nat>)
    requires p < |s| && ReadSoFar(s, p, cps) && First(s[p..]).None?
    ensures Parse(s).None?
  {
  }

  /** The output after the code points `cps`. */
  function Opened(cps: seq<nat>): (b: seq<Octet>)
    requires Scalars(cps)
  {
    [QUOTE] + Escapes(cps)
  }

  lemma OpenedGrows(cps: seq<nat>, cp: nat, out: seq<Octet>)
    requires Scalars(cps) && Scalar(cp) && out == Opened(cps)
    ensures Scalars(cps + [cp]) && out + Escape(cp) == Opened(cps + [cp])
  {
    EscapesGrow(cps, cp);
    Associative([QUOTE], Escapes(cps), Escape(cp));
  }

  lemma Associative(a: seq<Octet>, b: seq<Octet>, c: seq<Octet>)
    ensures a + b + c == a + (b + c)
  {
  }

  /** json_string.  A string that is not UTF-8 is refused. */
  method WriteString(s: seq<Octet>) returns (ok: bool, out: seq<Octet>)
    requires CString(s)
    ensures ok == Parse(s).Some?
    ensures ok ==> Scalars(Parse(s).value) && out == [QUOTE] + Escapes(Parse(s).value) + [QUOTE]
  {
    var p := 0;
    ghost var cps: seq<nat> := [];
    out := [QUOTE];
    ReadNothing(s);
    while At(s, p) != 0
      invariant p <= |s| && ReadSoFar(s, p, cps) && out == Opened(cps)
      decreases |s| - p
    {
      var cp, next := ReadOne(s, p);
      if cp.None? {
        ReadFailed(s, p, cps);
        return false, out;
      }
      ReadMore(s, p, cp.value, next, cps);
      OpenedGrows(cps, cp.value, out);
      out := out + Escape(cp.value);
      cps, p := cps + [cp.value], next;
    }
    ReadAll(s, cps);
    ok, out := true, out + [QUOTE];
  }

  /** A null pointer becomes the word null. */
  method Write(value: Option<seq<Octet>>) returns (ok: bool, out: seq<Octet>)
    requires value.Some? ==> CString(value.value)
    ensures value.None? ==> ok && out == [0x6e, 0x75, 0x6c, 0x6c]
    ensures value.Some? ==> (ok <==> exists cps :: Scalars(cps) && Utf8(cps) == value.value)
    ensures value.Some? && ok ==> exists cps :: Scalars(cps) && Utf8(cps) == value.value && Decode(out) == Some(cps)
    ensures ok ==> forall i | 0 <= i < |out| :: out[i] < 0x80
  {
    if value.None? {
      return true, [0x6e, 0x75, 0x6c, 0x6c];
    }
    ok, out := WriteString(value.value);
    ParseExactlyUtf8(value.value);
    if ok {
      ParseIsUtf8(value.value);
      WrittenDecodes(Parse(value.value).value);
    }
  }

  lemma {:induction false} AccumulateShift(s: seq<Octet>, k: nat, p: nat, cp: nat, n: nat)
    requires k + p <= |s|
    ensures Accumulate(s, k + p, cp, n) == Accumulate(s[k..], p, cp, n)
    decreases n
  {
    if n > 0 && 0x80 <= At(s, k + p) < 0xc0 {
      AccumulateShift(s, k, p + 1, cp * 64 + (s[k + p] - 0x80), n - 1);
    }
  }

  lemma EncodedLength(cp: nat, s: seq<Octet>)
    requires Scalar(cp) && Encode1(cp) <= s
    ensures |Encode1(cp)| == if s[0] < 0x80 then 1 else 1 + Continuations(s[0])
  {
    assert Encode1(cp)[0] == s[0];
  }

  // ----- JSON strings, from section 7 of RFC 8259

  function HexValue(b: Octet): (r: Option<nat>) {
    if 0x30 <= b <= 0x39 then Some(b - 0x30)
    else if 0x61 <= b <= 0x66 then Some(b - 0x61 + 10)
    else if 0x41 <= b <= 0x46 then Some(b - 0x41 + 10)
    else None
  }

  function Hex4Value(a: Octet, b: Octet, c: Octet, d: Octet): (r: Option<nat>) {
    if HexValue(a).None? || HexValue(b).None? || HexValue(c).None? || HexValue(d).None? then None
    else Some(((HexValue(a).value * 16 + HexValue(b).value) * 16 + HexValue(c).value) * 16 + HexValue(d).value)
  }

  /** The character a one-letter escape stands for. */
  function ShortEscape(b: Octet): (r: Option<nat>) {
    if b in {QUOTE, BACKSLASH, 0x2f} then Some(b)
    else if b == 0x62 then Some(8) else if b == 0x66 then Some(12) else if b == 0x6e then Some(10)
    else if b == 0x72 then Some(13) else if b == 0x74 then Some(9) else None
  }

  /** The 16-bit units of an ASCII JSON string after its opening quote. */
  function Units(t: seq<Octet>): (r: Option<seq<nat>>)
    decreases |t|
  {
    if t == [] then None
    else if t[0] == QUOTE then (if |t| == 1 then Some([]) else None)
    else if t[0] < 0x20 || t[0] >= 0x80 then None
    else if t[0] != BACKSLASH then Prefix([t[0]], Units(t[1..]))
    else if |t| >= 2 && t[1] != LETTER_U then
      (if ShortEscape(t[1]).None? then None else Prefix([ShortEscape(t[1]).value], Units(t[2..])))
    else if |t| < 6 || Hex4Value(t[2], t[3], t[4], t[5]).None? then None
    else Prefix([Hex4Value(t[2], t[3], t[4], t[5]).value], Units(t[6..]))
  }

  /** Surrogate pairs joined; an unpaired surrogate has no code point. */
  function Join(us: seq<nat>): (r: Option<seq<nat>>)
    decreases |us|
  {
    if us == [] then Some([])
    else if 0xd800 <= us[0] <= 0xdbff then
      if |us| >= 2 && 0xdc00 <= us[1] <= 0xdfff then
        Prefix([0x1_0000 + (us[0] - 0xd800) * 0x400 + (us[1] - 0xdc00)], Join(us[2..]))
      else None
    else if 0xdc00 <= us[0] <= 0xdfff then None
    else Prefix([us[0]], Join(us[1..]))
  }

  function Decode(t: seq<Octet>): (r: Option<seq<nat>>) {
    if t == [] || t[0] != QUOTE || Units(t[1..]).None? then None else Join(Units(t[1..]).value)
  }

  function UnitsOf(cp: nat): (us: seq<nat>)
    requires Scalar(cp)
  {
    if cp <= 0xffff then [cp] else [0xd800 + (cp - 0x1_0000) / 0x400, 0xdc00 + (cp - 0x1_0000) % 0x400]
  }

  function AllUnits(cps: seq<nat>): (us: seq<nat>)
    requires Scalars(cps)
  {
    if cps == [] then [] else UnitsOf(cps[0]) + AllUnits(cps[1..])
  }

  lemma HexDigitReads(d: nat)
    requires d < 16
    ensures HexValue(HexDigit(d)) == Some(d)
  {
  }

  lemma Nibbles(n: nat)
    requires n < 0x1_0000
    ensures n / 4096 < 16
    ensures n == ((n / 4096 * 16 + n / 256 % 16) * 16 + n / 16 % 16) * 16 + n % 16
  {
    assert n / 256 == n / 16 / 16 && n / 4096 == n / 256 / 16;
  }

  lemma HexDigits(n: nat)
    requires n < 0x1_0000
    ensures Hex4Value(HexDigit(n / 4096), HexDigit(n / 256 % 16), HexDigit(n / 16 % 16), HexDigit(n % 16)) == Some(n)
  {
    Nibbles(n);
    var a, b, c, d := n / 4096, n / 256 % 16, n / 16 % 16, n % 16;
    HexDigitReads(a);
    HexDigitReads(b);
    HexDigitReads(c);
    HexDigitReads(d);
  }

  lemma Hex4Units(n: nat, t: seq<Octet>)
    requires n < 0x1_0000
    ensures Units(Hex4(n) + t) == Prefix([n], Units(t))
  {
    HexDigits(n);
    assert (Hex4(n) + t)[6..] == t;
  }

  lemma PairUnits(hi: nat, lo: nat, t: seq<Octet>)
    requires hi < 0x1_0000 && lo < 0x1_0000
    ensures Units(Hex4(hi) + Hex4(lo) + t) == Prefix([hi, lo], Units(t))
  {
    Associative(Hex4(hi), Hex4(lo), t);
    Hex4Units(hi, Hex4(lo) + t);
    Hex4Units(lo, t);
    PrefixTwice([hi], [lo], Units(t));
    assert [hi] + [lo] == [hi, lo];
  }

  lemma EscapeUnits(cp: nat, t: seq<Octet>)
    requires Scalar(cp)
    ensures Units(Escape(cp) + t) == Prefix(UnitsOf(cp), Units(t))
  {
    if cp == QUOTE || cp == BACKSLASH {
      assert (Escape(cp) + t)[2..] == t;
    } else if 0x20 <= cp < 0x80 {
      assert (Escape(cp) + t)[1..] == t;
    } else if cp <= 0xffff {
      Hex4Units(cp, t);
    } else {
      PairUnits(0xd800 + (cp - 0x1_0000) / 0x400, 0xdc00 + (cp - 0x1_0000) % 0x400, t);
    }
  }

  lemma {:induction false} EscapesUnits(cps: seq<nat>)
    requires Scalars(cps)
    ensures Units(Escapes(cps) + [QUOTE]) == Some(AllUnits(cps))
    decreases |cps|
  {
    if cps == [] {
      assert Escapes(cps) + [QUOTE] == [QUOTE];
    } else {
      assert Escapes(cps) + [QUOTE] == Escape(cps[0]) + (Escapes(cps[1..]) + [QUOTE]);
      EscapesUnits(cps[1..]);
      EscapeUnits(cps[0], Escapes(cps[1..]) + [QUOTE]);
    }
  }

  lemma {:induction false} JoinAll(cps: seq<nat>)
    requires Scalars(cps)
    ensures Join(AllUnits(cps)) == Some(cps)
    decreases |cps|
  {
    if cps != [] {
      var us := AllUnits(cps);
      JoinAll(cps[1..]);
      assert us[|UnitsOf(cps[0])|..] == AllUnits(cps[1..]);
      assert cps == [cps[0]] + cps[1..];
      if cps[0] > 0xffff {
        var x := cps[0] - 0x1_0000;
        assert x == x / 0x400 * 0x400 + x % 0x400;
      }
    }
  }

  /** What the encoder writes decodes, as a JSON string, to the code points it read; and it
      writes nothing but ASCII. */
  lemma WrittenDecodes(cps: seq<nat>)
    requires Scalars(cps)
    ensures var out := [QUOTE] + Escapes(cps) + [QUOTE];
            Decode(out) == Some(cps) && forall i | 0 <= i < |out| :: out[i] < 0x80
  {
    DecodesInQuotes(Escapes(cps), [QUOTE] + Escapes(cps) + [QUOTE]);
    EscapesUnits(cps);
    JoinAll(cps);
  }

  lemma DecodesInQuotes(e: seq<Octet>, out: seq<Octet>)
    requires out == [QUOTE] + e + [QUOTE]
    ensures Decode(out) == if Units(e + [QUOTE]).None? then None else Join(Units(e + [QUOTE]).value)
  {
    assert out[1..] == e + [QUOTE];
  }
}
