/**
 Form fields on their way from the portal (pi/portal.py, Python's `urlencode`) to the firmware
 (test-firmware/main/wifi_prov.c, `form_get` and `url_decode`): the percent-encoding of RFC 3986 section 2.1
 with '+' for a space.

 Names and values are bytes, after Python's UTF-8 encoding.  A C string is its bytes before the NUL.
 */
module Form {
  import opened Options
  import opened Bytes
  import opened Sequences

  const AMP: byte := '&' as int
  const EQUALS: byte := '=' as int
  const PLUS: byte := '+' as int
  const MINUS: byte := '-' as int
  const PERCENT: byte := '%' as int
  const SPACE: byte := ' ' as int
  const NUL: byte := 0

  // ----- the writer

  predicate IsSafe(b: byte) {
    '0' as int <= b <= '9' as int || 'A' as int <= b <= 'Z' as int || 'a' as int <= b <= 'z' as int
    || b == '_' as int || b == '.' as int || b == MINUS || b == '~' as int
  }

  function HexChar(n: int): byte
    requires 0 <= n < 16
  {
    if n < 10 then '0' as int + n else 'A' as int + n - 10
  }

  function Quote(b: byte): (s: seq<byte>)
    ensures |s| == 1 || |s| == 3
  {
    if IsSafe(b) then [b] else if b == SPACE then [PLUS] else [PERCENT, HexChar(b / 16), HexChar(b % 16)]
  }

  function QuoteAll(v: seq<byte>): seq<byte> {
    if v == [] then [] else Quote(v[0]) + QuoteAll(v[1..])
  }

  datatype Field = Field(name: seq<byte>, value: seq<byte>) {
    function Print(): seq<byte> {
      QuoteAll(name) + [EQUALS] + QuoteAll(value)
    }
  }

  function Encode(fields: seq<Field>): seq<byte> {
    if fields == [] then []
    else if |fields| == 1 then fields[0].Print()
    else fields[0].Print() + [AMP] + Encode(fields[1..])
  }

  /** The value of the first field of that name. */
  function Lookup(fields: seq<Field>, name: seq<byte>): Option<seq<byte>> {
    if fields == [] then None
    else if fields[0].name == name then Some(fields[0].value)
    else Lookup(fields[1..], name)
  }

  // ----- decoding in place

  predicate IsSpace(b: byte) {
    b == SPACE || 9 <= b <= 13
  }

  function HexDigit(b: byte): (d: Option<int>)
    ensures d.Some? ==> 0 <= d.value < 16
  {
    if '0' as int <= b <= '9' as int then Some(b - '0' as int)
    else if 'A' as int <= b <= 'F' as int then Some(b - 'A' as int + 10)
    else if 'a' as int <= b <= 'f' as int then Some(b - 'a' as int + 10)
    else None
  }

  function DigitOrZero(b: byte): (d: int)
    ensures 0 <= d < 16
  {
    if HexDigit(b).Some? then HexDigit(b).value else 0
  }

  /** What `strtol` in base 16 makes of two characters, cast to a character: it skips leading space, takes a
      sign, and stops at the first character that is no digit. */
  function Strtol(hi: byte, lo: byte): byte {
    if IsSpace(hi) || hi == PLUS then DigitOrZero(lo)
    else if hi == MINUS then (if DigitOrZero(lo) == 0 then 0 else 256 - DigitOrZero(lo))
    else if HexDigit(hi).None? then 0
    else if HexDigit(lo).None? then HexDigit(hi).value
    else 16 * HexDigit(hi).value + HexDigit(lo).value
  }

  function Decode(s: seq<byte>): (d: seq<byte>)
    ensures |d| <= |s|
  {
    if s == [] then []
    else if s[0] == PLUS then [SPACE] + Decode(s[1..])
    else if s[0] == PERCENT && |s| >= 3 then [Strtol(s[1], s[2])] + Decode(s[3..])
    else [s[0]] + Decode(s[1..])
  }

  const UPPER: string := "0123456789ABCDEF"
  const LOWER: string := "0123456789abcdef"

  /** The byte is the hexadecimal digit `i`, in either case. */
  predicate IsHex(b: byte, i: int)
    requires 0 <= i < 16
  {
    b == UPPER[i] as int || b == LOWER[i] as int
  }

  /** What a percent sign and two characters decode to: two digits are a number; of a digit and something else the digit
      counts; behind white space or a sign the second character counts; and anything else is a NUL. */
  lemma DecodesPair(hi: byte, lo: byte, i: int, j: int)
    requires 0 <= i < 16 && 0 <= j < 16
    ensures IsHex(hi, i) && IsHex(lo, j) ==> Decode([PERCENT, hi, lo]) == [16 * i + j]
    ensures IsHex(hi, i) && (forall k :: 0 <= k < 16 ==> !IsHex(lo, k)) ==> Decode([PERCENT, hi, lo]) == [i]
    ensures hi in {9, 10, 11, 12, 13, 32, 43} && IsHex(lo, j) ==> Decode([PERCENT, hi, lo]) == [j]
    ensures hi == 45 && IsHex(lo, j) ==> Decode([PERCENT, hi, lo]) == [if j == 0 then 0 else 256 - j]
  {
    DecodesOne(hi, lo);
    DigitIs(hi);
    DigitIs(lo);
  }

  lemma DecodesNothing(hi: byte, lo: byte)
    ensures (forall k :: 0 <= k < 16 ==> !IsHex(hi, k))
            && (hi in {9, 10, 11, 12, 13, 32, 43, 45} ==> forall k :: 0 <= k < 16 ==> !IsHex(lo, k))
            ==> Decode([PERCENT, hi, lo]) == [NUL]
  {
    DecodesOne(hi, lo);
    DigitIs(hi);
    DigitIs(lo);
  }

  lemma DecodesOne(hi: byte, lo: byte)
    ensures Decode([PERCENT, hi, lo]) == [Strtol(hi, lo)]
  {
    var s: seq<byte> := [PERCENT, hi, lo];
    assert s[3..] == [] && Decode([]) == [];
  }

  lemma DigitIs(b: byte)
    ensures forall k :: 0 <= k < 16 && IsHex(b, k) ==> HexDigit(b) == Some(k)
    ensures HexDigit(b).Some? ==> IsHex(b, HexDigit(b).value)
  {
  }

  /** What a form has for a byte: the unreserved characters of RFC 3986, section 2.3, as they are, a plus sign for a
      space, and for anything else a percent sign and its two digits, in upper case. */
  lemma QuoteExactly(b: byte)
    ensures Quote(b) ==
            if b == 32 then [43]
            else if 0 <= b - 97 < 26 || 0 <= b - 65 < 26 || 0 <= b - 48 < 10 || b in {45, 46, 95, 126} then [b]
            else [37, UPPER[b / 16] as int, UPPER[b % 16] as int]
  {
  }

  /** `len` is where the C string in the buffer ends. */
  predicate EndsAt(buffer: seq<byte>, len: nat) {
    len < |buffer| && buffer[len] == NUL && NUL !in buffer[..len]
  }

  /** Decodes in place, the write cursor never ahead of the read cursor. */
  method UrlDecode(s: array<byte>, ghost len: nat) returns (n: nat)
    requires EndsAt(s[..], len)
    modifies s
    ensures n == |Decode(old(s[..len]))| <= len
    ensures s[..n] == Decode(old(s[..len])) && s[n] == NUL
    ensures forall i :: n < i < s.Length ==> s[i] == old(s[i])
  {
    hide Decode, Strtol;
    ghost var text := s[..len];
    ghost var all := s[..];
    var src, dst := 0, 0;
    assert text[0..] == text;
    while s[src] != NUL
      invariant dst <= src <= len
      invariant forall i :: dst <= i < s.Length ==> s[i] == all[i]
      invariant s[..dst] + Decode(text[src..]) == Decode(text)
      decreases len - src
    {
      assert s[src] == all[src];
      DecodeNext(text, src);
      ghost var done := s[..dst];
      var b: byte;
      if s[src] == PLUS {
        b := SPACE;
      } else if s[src] == PERCENT && s[src + 1] != NUL && s[src + 2] != NUL {
        assert src + 1 != len && src + 2 != len;
        b := Strtol(s[src + 1], s[src + 2]);
        src := src + 2;
      } else {
        assert all[len] == NUL;
        b := s[src];
      }
      Regroup(done, [b], Decode(text[src + 1..]));
      s[dst] := b;
      dst, src := dst + 1, src + 1;
      assert s[..dst] == done + [b];
    }
    assert src == len && text[len..] == [];
    s[dst] := NUL;
    n := dst;
    DecodeNothing();
  }

  lemma DecodeNothing()
    ensures Decode([]) == []
  {
  }

  lemma DecodeNext(text: seq<byte>, src: nat)
    requires src < |text|
    ensures if text[src] == PLUS then Decode(text[src..]) == [SPACE] + Decode(text[src + 1..])
            else if text[src] == PERCENT && src + 2 < |text| then
              Decode(text[src..]) == [Strtol(text[src + 1], text[src + 2])] + Decode(text[src + 3..])
            else Decode(text[src..]) == [text[src]] + Decode(text[src + 1..])
  {
    assert text[src..][1..] == text[src + 1..];
    if src + 2 < |text| {
      assert text[src..][3..] == text[src + 3..];
    }
  }

  // ----- finding a field

  /** A field of that name starts at `q`. */
  predicate FieldAt(body: seq<byte>, key: seq<byte>, q: nat) {
    && Stands(body, q, key)
    && (q == 0 || body[q - 1] == AMP)
    && q + |key| < |body| && body[q + |key|] == EQUALS
  }

  /** The walk of `form_get`: the first hit that is a field; a hit that is not is skipped whole. */
  function Search(body: seq<byte>, key: seq<byte>, p: nat): (at: Option<nat>)
    requires key != []
    ensures at.Some? ==> FieldAt(body, key, at.value) && at.value + |key| < |body|
    decreases |body| - p
  {
    match Find(body, key, p)
    case None => None
    case Some(q) => if FieldAt(body, key, q) then Some(q) else Search(body, key, q + |key|)
  }

  lemma SearchNext(body: seq<byte>, key: seq<byte>, p: nat)
    requires key != []
    ensures Search(body, key, p) ==
            match Find(body, key, p)
            case None => None
            case Some(q) => if FieldAt(body, key, q) then Some(q) else Search(body, key, q + |key|)
  {
  }

  /** The text from `p` up to the next '&'. */
  function UpToAmp(body: seq<byte>, p: nat): (v: seq<byte>)
    requires p <= |body|
    ensures p + |v| <= |body|
    decreases |body| - p
  {
    if p == |body| || body[p] == AMP then [] else [body[p]] + UpToAmp(body, p + 1)
  }

  lemma {:induction false} UpToAmpIsPart(body: seq<byte>, p: nat)
    requires p <= |body|
    ensures UpToAmp(body, p) == body[p..p + |UpToAmp(body, p)|]
    decreases |body| - p
  {
    if p < |body| && body[p] != AMP {
      UpToAmpIsPart(body, p + 1);
    }
  }

  /** The part of a value that fits a buffer of that size. */
  function Fit(v: seq<byte>, size: nat): seq<byte>
    requires size > 0
  {
    if |v| >= size then v[..size - 1] else v
  }

  /** What a field read leaves in its buffer, before the NUL. */
  function ReadField(body: seq<byte>, key: seq<byte>, size: nat): Option<seq<byte>>
    requires key != [] && size > 0
  {
    match Search(body, key, 0)
    case None => None
    case Some(q) => Some(Decode(Fit(UpToAmp(body, q + |key| + 1), size)))
  }

  /** A C string has no NUL inside. */
  predicate CString(s: seq<byte>) {
    NUL !in s
  }

  method FormGet(body: seq<byte>, key: seq<byte>, out: array<byte>) returns (found: bool)
    requires CString(body) && key != [] && out.Length > 0
    modifies out
    ensures found <==> ReadField(body, key, out.Length).Some?
    ensures found ==> var v := ReadField(body, key, out.Length).value;
                      |v| < out.Length && out[..|v|] == v && out[|v|] == NUL
    ensures !found ==> out[..] == old(out[..])
  {
    hide Decode, UpToAmp, Fit, Stands, Find, Search;
    var p := 0;
    while true
      invariant Search(body, key, p) == Search(body, key, 0)
      invariant out[..] == old(out[..])
      decreases |body| - p
    {
      SearchNext(body, key, p);
      var hit := Find(body, key, p);
      if hit.None? {
        return false;
      }
      p := hit.value;
      if p != 0 && body[p - 1] != AMP {
        p := p + |key|;
        continue;
      }
      if p + |key| == |body| || body[p + |key|] != EQUALS {
        p := p + |key|;
        continue;
      }
      p := p + |key| + 1;
      ReadValue(body, p, out);
      return true;
    }
  }

  method ReadValue(body: seq<byte>, p: nat, out: array<byte>)
    requires CString(body) && p <= |body| && out.Length > 0
    modifies out
    ensures var v := Decode(Fit(UpToAmp(body, p), out.Length));
            |v| < out.Length && out[..|v|] == v && out[|v|] == NUL
  {
    hide Decode, UpToAmp;
    var value := UpToAmp(body, p);
    var length := |value|;
    if length >= out.Length {
      length := out.Length - 1;
    }
    UpToAmpIsPart(body, p);
    assert CString(value);
    Copy(out, value, length);
    assert value[..length] == Fit(value, out.Length);
    var n := UrlDecode(out, length);
  }

  /** The first `n` bytes and a NUL behind them. */
  method Copy(out: array<byte>, from: seq<byte>, n: nat)
    requires n <= |from| && n < out.Length && CString(from)
    modifies out
    ensures out[..n] == from[..n] && EndsAt(out[..], n)
  {
    for i := 0 to n
      invariant out[..i] == from[..i]
    {
      out[i] := from[i];
    }
    out[n] := NUL;
    assert out[..][..n] == from[..n];
  }

  /** For a name without '&', skipping a hit whole skips no field: the search finds the first field of that
      very name in any body, and nothing exactly when there is none. */
  lemma {:induction false} SearchIsFirst(body: seq<byte>, key: seq<byte>, p: nat)
    requires key != [] && AMP !in key
    ensures match Search(body, key, p)
            case None => forall q :: p <= q ==> !FieldAt(body, key, q)
            case Some(at) => p <= at && FieldAt(body, key, at) && forall q :: p <= q < at ==> !FieldAt(body, key, q)
    decreases |body| - p
  {
    hide FieldAt, Find, Search;
    SearchNext(body, key, p);
    NoHitNoField(body, key, p);
    var hit := Find(body, key, p);
    if hit.Some? && !FieldAt(body, key, hit.value) {
      SkipsNoField(body, key, hit.value);
      SearchIsFirst(body, key, hit.value + |key|);
    }
  }

  lemma NoHitNoField(body: seq<byte>, key: seq<byte>, p: nat)
    ensures var hit := Find(body, key, p);
            forall q :: p <= q && (hit.Some? ==> q < hit.value) ==> !FieldAt(body, key, q)
  {
    hide Stands;
  }

  lemma SkipsNoField(body: seq<byte>, key: seq<byte>, at: nat)
    requires Stands(body, at, key) && AMP !in key
    ensures forall q :: at < q < at + |key| ==> !FieldAt(body, key, q)
  {
    forall q | at < q < at + |key| ensures !FieldAt(body, key, q) {
      assert body[q - 1] == body[at..at + |key|][q - 1 - at] == key[q - 1 - at];
    }
  }

  // ----- forms as the portal writes them

  /** No byte with a meaning to the reader of fields. */
  predicate Plain(s: seq<byte>) {
    AMP !in s && EQUALS !in s && NUL !in s
  }

  lemma {:induction false} QuoteAllIsPlain(v: seq<byte>)
    ensures Plain(QuoteAll(v)) && |v| <= |QuoteAll(v)|
  {
    if v != [] {
      QuoteAllIsPlain(v[1..]);
      assert Plain(Quote(v[0]));
    }
  }

  predicate SafeName(key: seq<byte>) {
    key != [] && forall b :: b in key ==> IsSafe(b)
  }

  /** The only name that is written as a safe key is the key itself. */
  lemma {:induction false} QuoteSafe(name: seq<byte>, key: seq<byte>)
    requires forall b :: b in key ==> IsSafe(b)
    ensures QuoteAll(name) == key <==> name == key
  {
    if name != [] && key != [] {
      QuoteSafe(name[1..], key[1..]);
      if QuoteAll(name) == key {
        assert key[0] == Quote(name[0])[0];
        assert IsSafe(key[0]);
        assert QuoteAll(name)[1..] == QuoteAll(name[1..]);
      }
    }
  }

  /** One field at the front of a body. */
  predicate Leads(f: Field, body: seq<byte>) {
    var n := |f.Print()|;
    n <= |body| && body[..n] == f.Print() && (n < |body| ==> body[n] == AMP)
  }

  lemma LeadingField(f: Field, body: seq<byte>, key: seq<byte>)
    requires Leads(f, body) && SafeName(key)
    ensures FieldAt(body, key, 0) <==> f.name == key
    ensures f.name == key ==> |key| + 1 <= |body| && UpToAmp(body, |key| + 1) == QuoteAll(f.value)
    ensures forall q :: 0 < q <= |f.Print()| ==> !FieldAt(body, key, q)
  {
    hide Stands, QuoteAll, UpToAmp, Plain;
    var name, value := QuoteAll(f.name), QuoteAll(f.value);
    PrintedField(f, body);
    QuoteSafe(f.name, key);
    assert !IsSafe(EQUALS);
    StandsAtStart(body, key, name);
    if f.name == key {
      ValueEnds(body, |name| + 1, value);
    }
  }

  lemma PrintedField(f: Field, body: seq<byte>)
    requires Leads(f, body)
    ensures var name, value, n := QuoteAll(f.name), QuoteAll(f.value), |f.Print()|;
            && n == |name| + 1 + |value| <= |body|
            && body[..|name|] == name && EQUALS !in name && body[|name|] == EQUALS
            && body[|name| + 1..n] == value && AMP !in value
            && forall i :: 0 <= i < n ==> body[i] != AMP
  {
    hide QuoteAll;
    var name, value, h := QuoteAll(f.name), QuoteAll(f.value), f.Print();
    QuoteAllIsPlain(f.name);
    QuoteAllIsPlain(f.value);
    assert AMP !in h;
    assert forall i {:trigger body[i]} :: 0 <= i < |h| ==> body[i] == body[..|h|][i] == h[i];
    assert name == h[..|name|] == body[..|h|][..|name|] == body[..|name|];
    assert value == h[|name| + 1..] == body[..|h|][|name| + 1..] == body[|name| + 1..|h|];
  }

  lemma StandsAtStart(body: seq<byte>, key: seq<byte>, name: seq<byte>)
    requires |name| < |body| && body[..|name|] == name && body[|name|] == EQUALS && EQUALS !in name && EQUALS !in key
    ensures Stands(body, 0, key) && |key| < |body| && body[|key|] == EQUALS <==> name == key
  {
    assert forall i {:trigger body[i]} :: 0 <= i < |name| ==> body[i] == body[..|name|][i] == name[i];
    if Stands(body, 0, key) && |key| < |body| && body[|key|] == EQUALS {
      assert forall i {:trigger body[i]} :: 0 <= i < |key| ==> body[i] == body[0..|key|][i] == key[i];
      assert |key| == |name|;
    }
  }

  lemma {:induction false} ValueEnds(body: seq<byte>, p: nat, v: seq<byte>)
    requires p + |v| <= |body| && AMP !in v && (p + |v| < |body| ==> body[p + |v|] == AMP)
    requires body[p..p + |v|] == v
    ensures UpToAmp(body, p) == v
    decreases |v|
  {
    if v != [] {
      assert body[p] == body[p..p + |v|][0] == v[0];
      assert body[p + 1..p + |v|] == body[p..p + |v|][1..] == v[1..];
      ValueEnds(body, p + 1, v[1..]);
    }
  }

  /** `tail` is what is left of a body behind the '&' at `n`. */
  ghost predicate Behind(body: seq<byte>, n: nat, tail: seq<byte>) {
    |body| == n + 1 + |tail| && body[n] == AMP && forall i {:trigger tail[i]} :: 0 <= i < |tail| ==>
        tail[i] == body[n + 1 + i]
  }

  /** Behind the first field, a body reads like its tail. */
  lemma FieldInTail(body: seq<byte>, n: nat, tail: seq<byte>, key: seq<byte>, q: nat)
    requires Behind(body, n, tail)
    ensures FieldAt(body, key, n + 1 + q) <==> FieldAt(tail, key, q)
  {
    if q + |key| <= |tail| {
      assert tail[q..q + |key|] == body[n + 1 + q..n + 1 + q + |key|];
    }
  }

  lemma {:induction false} ValueInTail(body: seq<byte>, n: nat, tail: seq<byte>, p: nat)
    requires Behind(body, n, tail) && p <= |tail|
    ensures UpToAmp(body, n + 1 + p) == UpToAmp(tail, p)
    decreases |tail| - p
  {
    if p < |tail| && tail[p] != AMP {
      ValueInTail(body, n, tail, p + 1);
    }
  }

  /** What the reader is to find at `at`. */
  ghost predicate Found(body: seq<byte>, key: seq<byte>, wanted: Option<seq<byte>>, at: nat)
    requires SafeName(key)
  {
    match wanted
    case None => forall q :: !FieldAt(body, key, q)
    case Some(v) =>
      && FieldAt(body, key, at) && (forall q :: 0 <= q < at ==> !FieldAt(body, key, q))
      && at + |key| + 1 <= |body| && UpToAmp(body, at + |key| + 1) == QuoteAll(v)
  }

  lemma FoundBehind(f: Field, body: seq<byte>, tail: seq<byte>, key: seq<byte>, wanted: Option<seq<byte>>, at: nat)
    requires SafeName(key) && Found(tail, key, wanted, at)
    requires Leads(f, body) && Behind(body, |f.Print()|, tail) && f.name != key
    ensures Found(body, key, wanted, |f.Print()| + 1 + at)
  {
    hide FieldAt, UpToAmp, SafeName, Field.Print, QuoteAll, Leads;
    var n := |f.Print()|;
    LeadingField(f, body, key);
    forall q | n < q ensures FieldAt(body, key, q) <==> FieldAt(tail, key, q - n - 1) {
      FieldInTail(body, n, tail, key, q - n - 1);
    }
    if wanted.Some? {
      ValueInTail(body, n, tail, at + |key| + 1);
    }
  }

  lemma FoundHere(f: Field, body: seq<byte>, key: seq<byte>)
    requires SafeName(key) && Leads(f, body)
    ensures f.name == key ==> Found(body, key, Some(f.value), 0)
    ensures f.name != key && body == f.Print() ==> Found(body, key, None, 0)
  {
    BeyondBody(body, key);
    hide FieldAt, UpToAmp, SafeName, Field.Print, QuoteAll, Leads;
    LeadingField(f, body, key);
  }

  lemma EncodeLeads(fields: seq<Field>)
    requires fields != []
    ensures Leads(fields[0], Encode(fields))
    ensures |fields| == 1 ==> Encode(fields) == fields[0].Print()
    ensures |fields| > 1 ==> Behind(Encode(fields), |fields[0].Print()|, Encode(fields[1..]))
  {
    hide Field.Print;
  }

  lemma FoundNothing(key: seq<byte>)
    requires SafeName(key)
    ensures Found(Encode([]), key, None, 0)
  {
    BeyondBody([], key);
  }

  lemma LookupNext(fields: seq<Field>, name: seq<byte>)
    ensures fields == [] ==> Lookup(fields, name) == None
    ensures fields != [] && fields[0].name == name ==> Lookup(fields, name) == Some(fields[0].value)
    ensures fields != [] && fields[0].name != name ==> Lookup(fields, name) == Lookup(fields[1..], name)
    ensures |fields| == 1 && fields[0].name != name ==> Lookup(fields, name) == None
  {
  }

  /** A position in the form where the first field of that name starts, if there is one. */
  lemma {:induction false} FirstField(fields: seq<Field>, key: seq<byte>) returns (at: nat)
    requires SafeName(key)
    ensures Found(Encode(fields), key, Lookup(fields, key), at)
  {
    hide Found, Leads, Behind, SafeName, Field.Print, Encode, Lookup;
    at := 0;
    LookupNext(fields, key);
    if fields == [] {
      FoundNothing(key);
    } else {
      EncodeLeads(fields);
      FoundHere(fields[0], Encode(fields), key);
      if |fields| > 1 && fields[0].name != key {
        var at' := FirstField(fields[1..], key);
        FoundBehind(fields[0], Encode(fields), Encode(fields[1..]), key, Lookup(fields, key), at');
        at := |fields[0].Print()| + 1 + at';
      }
    }
  }

  lemma BeyondBody(body: seq<byte>, key: seq<byte>)
    requires key != []
    ensures forall q :: |body| <= q ==> !FieldAt(body, key, q)
  {
  }

  /** From a form the firmware reads the first field of exactly that name, and nothing when there is none. */
  lemma ReadsLookup(fields: seq<Field>, key: seq<byte>, size: nat)
    requires SafeName(key) && size > 0
    ensures ReadField(Encode(fields), key, size) ==
            match Lookup(fields, key)
            case None => None
            case Some(v) => Some(Decode(Fit(QuoteAll(v), size)))
  {
    hide FieldAt, UpToAmp, Decode, Fit, Search;
    assert AMP !in key by {
      assert !IsSafe(AMP);
    }
    var at := FirstField(fields, key);
    SearchIsFirst(Encode(fields), key, 0);
    var found := Search(Encode(fields), key, 0);
    if Lookup(fields, key).Some? && found.Some? {
      assert found.value == at;
    }
  }

  // ----- what is restored

  lemma HexPair(b: byte)
    ensures Strtol(HexChar(b / 16), HexChar(b % 16)) == b
  {
    assert HexDigit(HexChar(b / 16)) == Some(b / 16);
    assert HexDigit(HexChar(b % 16)) == Some(b % 16);
  }

  /** What becomes of a value when only the first `c` bytes of its encoding are kept. */
  function Cut(v: seq<byte>, c: nat): seq<byte> {
    if v == [] || c == 0 then []
    else if |Quote(v[0])| <= c then [v[0]] + Cut(v[1..], c - |Quote(v[0])|)
    else Quote(v[0])[..c]
  }

  /** Decoding undoes encoding as far as the encoding was kept; a cut escape stays as it is. */
  lemma {:induction false} DecodeUndoesQuote(v: seq<byte>, c: nat)
    requires c <= |QuoteAll(v)|
    ensures Decode(QuoteAll(v)[..c]) == Cut(v, c)
  {
    if v != [] && c > 0 {
      var q := Quote(v[0]);
      var s := QuoteAll(v)[..c];
      if |q| <= c {
        CutConcat(q, QuoteAll(v[1..]), c);
        DecodeUndoesQuote(v[1..], c - |q|);
        DecodeQuoted(v[0], s);
      } else {
        assert s == q[..c];
        assert c == 2 ==> s[1..] == [HexChar(v[0] / 16)];
        DecodeNothing();
        assert s[1..] != [] ==> s[1..][1..] == [];
      }
    }
  }

  lemma CutConcat(a: seq<byte>, b: seq<byte>, c: nat)
    requires |a| <= c <= |a + b|
    ensures a <= (a + b)[..c] && (a + b)[..c][|a|..] == b[..c - |a|]
  {
  }

  lemma DecodeQuoted(b: byte, s: seq<byte>)
    requires Quote(b) <= s
    ensures Decode(s) == [b] + Decode(s[|Quote(b)|..])
  {
    HexPair(b);
    assert s[..|Quote(b)|] == Quote(b);
    if |Quote(b)| == 3 {
      assert s[0] == PERCENT && s[1] == HexChar(b / 16) && s[2] == HexChar(b % 16);
    }
  }

  /** The values that a cut of two bytes happens to spare: a '%' that is read as it stands. */
  predicate EndsInPercent(v: seq<byte>) {
    (|v| >= 1 && v[|v| - 1] == PERCENT) || (|v| >= 2 && v[|v| - 2] == PERCENT && v[|v| - 1] == '2' as int)
  }

  lemma {:induction false} CutIsWhole(v: seq<byte>, c: nat)
    requires c <= |QuoteAll(v)|
    ensures Cut(v, c) == v <==> c == |QuoteAll(v)| || (c + 2 == |QuoteAll(v)| && EndsInPercent(v))
  {
    if v != [] {
      hide IsSafe, HexChar;
      var n := |Quote(v[0])|;
      QuoteAllIsPlain(v[1..]);
      if c < n {
        CutInFirst(v, c);
      } else {
        CutIsWhole(v[1..], c - n);
        assert Cut(v, c) == [v[0]] + Cut(v[1..], c - n);
        assert |v| == 2 ==> QuoteAll(v[1..]) == Quote(v[1]);
      }
    }
  }

  lemma CutInFirst(v: seq<byte>, c: nat)
    requires v != [] && c < |Quote(v[0])|
    ensures |QuoteAll(v)| > c
    ensures Cut(v, c) == v <==> c + 2 == |QuoteAll(v)| && EndsInPercent(v)
  {
    QuoteAllIsPlain(v[1..]);
    if |v| == 1 {
      assert QuoteAll(v) == Quote(v[0]);
    } else if |v| == 2 {
      assert QuoteAll(v) == Quote(v[0]) + Quote(v[1]);
    }
  }

  /** The C string in a buffer. */
  function UpToNul(s: seq<byte>): (c: seq<byte>)
    ensures CString(c) && c <= s
    ensures CString(s) ==> c == s
  {
    if s == [] || s[0] == NUL then [] else [s[0]] + UpToNul(s[1..])
  }

  /** A buffer of that size takes the value. */
  predicate Survives(v: seq<byte>, size: nat) {
    CString(v) && (|QuoteAll(v)| < size || (|QuoteAll(v)| == size + 1 && EndsInPercent(v)))
  }

  lemma {:induction false} CutHasNoNul(v: seq<byte>, c: nat)
    requires CString(v)
    ensures CString(Cut(v, c))
  {
    if v != [] && c != 0 {
      if |Quote(v[0])| <= c {
        CutHasNoNul(v[1..], c - |Quote(v[0])|);
      } else {
        assert CString(Quote(v[0]));
      }
    }
  }

  /** Truncation comes before decoding: the value is restored exactly when it has no NUL and its encoding is
      shorter than the buffer, or loses only the two digits of a '%'. */
  lemma RestoredExactly(v: seq<byte>, size: nat)
    requires size > 0
    ensures UpToNul(Decode(Fit(QuoteAll(v), size))) == v <==> Survives(v, size)
  {
    var enc := QuoteAll(v);
    var c := if |enc| >= size then size - 1 else |enc|;
    assert Fit(enc, size) == enc[..c];
    DecodeUndoesQuote(v, c);
    CutIsWhole(v, c);
    if CString(v) {
      CutHasNoNul(v, c);
    }
  }

  // ----- the credentials handler

  const SSID: seq<byte> := [115, 115, 105, 100]
  const PASSWORD: seq<byte> := [112, 97, 115, 115, 119, 111, 114, 100]
  const BROKER: seq<byte> := [98, 114, 111, 107, 101, 114]

  const SSID_SIZE := 33
  const PASSWORD_SIZE := 65
  const BROKER_SIZE := 128
  const BODY_MAX := 511

  /** The string members of a body that parses as JSON. */
  datatype Json = Json(ssid: Option<seq<byte>>, password: Option<seq<byte>>, broker: Option<seq<byte>>)

  datatype Outcome = NoBody | MissingSsid | Stored(ssid: seq<byte>, password: seq<byte>, broker: seq<byte>)

  function OrEmpty(s: Option<seq<byte>>): seq<byte> {
    if s.Some? then s.value else []
  }

  /** The C string that a field read leaves in a zeroed buffer of that size. */
  function FieldString(body: seq<byte>, key: seq<byte>, size: nat): seq<byte>
    requires key != [] && size > 0
  {
    UpToNul(OrEmpty(ReadField(body, key, size)))
  }

  method ReadString(body: seq<byte>, key: seq<byte>, size: nat) returns (found: bool, s: seq<byte>)
    requires CString(body) && key != [] && size > 0
    ensures found <==> ReadField(body, key, size).Some?
    ensures s == FieldString(body, key, size)
  {
    hide ReadField;
    var buffer := new byte[size](_ => 0);
    found := FormGet(body, key, buffer);
    s := UpToNul(buffer[..]);
    if found {
      var v := ReadField(body, key, size).value;
      assert buffer[..] == v + [NUL] + buffer[|v| + 1..];
      UpToFirstNul(v, buffer[|v| + 1..]);
    } else {
      assert size > 0 && buffer[..][0] == NUL;
    }
  }

  lemma {:induction false} UpToFirstNul(v: seq<byte>, rest: seq<byte>)
    ensures UpToNul(v + [NUL] + rest) == UpToNul(v)
  {
    if v != [] {
      assert (v + [NUL] + rest)[1..] == v[1..] + [NUL] + rest;
      UpToFirstNul(v[1..], rest);
    }
  }

  /** The JSON parser, which need not read to the end of the text. */
  type Parser = seq<byte> -> Option<Json>

  /** The handler of a submitted form. */
  method ConnectPost(request: seq<byte>, parse: Parser) returns (r: Outcome)
    ensures r == Connect(request, parse)
  {
    hide FieldString;
    var received := Received(request);
    if |received| <= 0 {
      return NoBody;
    }
    var body := UpToNul(received);
    var json := parse(body);
    var ssid, password, broker;
    if json.Some? {
      ssid := json.value.ssid;
      password := json.value.password;
      broker := json.value.broker;
    } else {
      ssid, broker := None, None;
      var found, s := ReadString(body, SSID, SSID_SIZE);
      if found {
        ssid := Some(s);
      }
      NotFound(body, SSID, SSID_SIZE);
      NotFound(body, BROKER, BROKER_SIZE);
      found, s := ReadString(body, PASSWORD, PASSWORD_SIZE);
      password := Some(s);
      found, s := ReadString(body, BROKER, BROKER_SIZE);
      if found {
        broker := Some(s);
      }
    }
    if ssid.None? || ssid.value == [] {
      return MissingSsid;
    }
    r := Stored(ssid.value, OrEmpty(password), OrEmpty(broker));
  }

  lemma NotFound(body: seq<byte>, key: seq<byte>, size: nat)
    requires key != [] && size > 0
    ensures ReadField(body, key, size).None? ==> FieldString(body, key, size) == []
  {
  }

  /** One read of the request body. */
  function Received(request: seq<byte>): seq<byte> {
    if |request| > BODY_MAX then request[..BODY_MAX] else request
  }

  function Connect(request: seq<byte>, parse: Parser): Outcome {
    var body := UpToNul(Received(request));
    var json := parse(body);
    var c := if json.Some? then
        Stored(OrEmpty(json.value.ssid), OrEmpty(json.value.password), OrEmpty(json.value.broker))
             else Stored(FieldString(body, SSID, SSID_SIZE), FieldString(body, PASSWORD, PASSWORD_SIZE),
                         FieldString(body, BROKER, BROKER_SIZE));
    if request == [] then NoBody else if c.ssid == [] then MissingSsid else c
  }

  /** The names of the three fields, in ASCII. */
  lemma FieldNames(i: nat)
    ensures |SSID| == |"ssid"| && (i < |SSID| ==> SSID[i] == "ssid"[i] as int)
    ensures |PASSWORD| == |"password"| && (i < |PASSWORD| ==> PASSWORD[i] == "password"[i] as int)
    ensures |BROKER| == |"broker"| && (i < |BROKER| ==> BROKER[i] == "broker"[i] as int)
  {
  }

  /** A field that was left out counts as empty. */
  predicate FieldSurvives(fields: seq<Field>, key: seq<byte>, size: nat) {
    Survives(OrEmpty(Lookup(fields, key)), size)
  }

  lemma FieldArrives(fields: seq<Field>, key: seq<byte>, size: nat)
    requires SafeName(key) && size > 0
    ensures FieldString(Encode(fields), key, size) == OrEmpty(Lookup(fields, key)) <==> FieldSurvives(fields, key, size)
  {
    hide ReadField, Decode, Survives, SafeName;
    ReadsLookup(fields, key, size);
    if Lookup(fields, key).Some? {
      RestoredExactly(Lookup(fields, key).value, size);
    } else {
      EmptySurvives(size);
    }
  }

  lemma EmptySurvives(size: nat)
    requires size > 0
    ensures Survives([], size)
  {
  }

  /** Of a form that fits one read and that the JSON parser rejects, the firmware stores exactly what the portal was
      given, first field of each name, if and only if there is an SSID and each of the three values survives its
      buffer; whatever other fields there are, in any order. */
  lemma CredentialsArrive(fields: seq<Field>, parse: Parser)
    requires |Encode(fields)| <= 511 && parse(Encode(fields)) == None
    ensures Connect(Encode(fields), parse)
              == Stored(OrEmpty(Lookup(fields, SSID)), OrEmpty(Lookup(fields, PASSWORD)),
                  OrEmpty(Lookup(fields, BROKER)))
            <==> && OrEmpty(Lookup(fields, SSID)) != []
                 && FieldSurvives(fields, SSID, 33)
                 && FieldSurvives(fields, PASSWORD, 65)
                 && FieldSurvives(fields, BROKER, 128)
  {
    hide FieldString, FieldSurvives, Lookup, Encode;
    assert SafeName(SSID) && SafeName(PASSWORD) && SafeName(BROKER);
    FieldArrives(fields, SSID, SSID_SIZE);
    FieldArrives(fields, PASSWORD, PASSWORD_SIZE);
    FieldArrives(fields, BROKER, BROKER_SIZE);
    EncodeIsCString(fields);
    if Encode(fields) == [] {
      NoFields(fields);
    }
  }

  /** What one read of a request holds as a C string: at most 511 bytes, up to the first NUL. */
  predicate IsBody(request: seq<byte>, body: seq<byte>) {
    && |body| <= 511 && body <= request && 0 !in body
    && (|body| == 511 || |body| == |request| || request[|body|] == 0)
  }

  lemma {:induction false} UpToNulIs(s: seq<byte>, body: seq<byte>)
    requires body <= s && 0 !in body && (|body| == |s| || s[|body|] == 0)
    ensures UpToNul(s) == body
  {
    if body != [] {
      assert body[0] in body && forall b: byte :: b in body[1..] ==> b in body;
      UpToNulIs(s[1..], body[1..]);
    }
  }

  /** Of a body that parses as JSON the firmware stores the three members as they are, however long; one that is
      missing counts as empty, and without an SSID nothing is stored. */
  lemma JsonArrives(request: seq<byte>, body: seq<byte>, parse: Parser, json: Json)
    requires request != [] && IsBody(request, body) && parse(body) == Some(json)
    ensures Connect(request, parse) ==
            if json.ssid == None || json.ssid == Some([]) then MissingSsid
            else Stored(json.ssid.value, if json.password == None then [] else json.password.value,
                        if json.broker == None then [] else json.broker.value)
  {
    UpToNulIs(Received(request), body);
  }

  /** An empty request is refused as such, whatever the parser makes of it, and no other request is. */
  lemma EmptyRequest(request: seq<byte>, parse: Parser)
    ensures Connect(request, parse) == NoBody <==> request == []
  {
    hide FieldString;
  }

  /** Of a request counts what one read of it holds. */
  lemma BodyCounts(request: seq<byte>, body: seq<byte>, parse: Parser)
    requires request != [] && body != [] && IsBody(request, body)
    ensures Connect(request, parse) == Connect(body, parse)
  {
    hide FieldString;
    UpToNulIs(Received(request), body);
    UpToNulIs(Received(body), body);
  }

  /** A byte that a JSON text can start with: space, a byte order mark, a bracket or quote, a number, or the first
      letter of `null`, `true` and `false`. */
  predicate MayStartJson(b: byte) {
    b <= SPACE || b == 0xEF
        || b == '{' as int || b == '[' as int || b == '"' as int || b == MINUS || '0' as int <= b <= '9' as int
    || b == 'n' as int || b == 't' as int || b == 'f' as int
  }

  ghost predicate NeedsJsonStart(parse: Parser) {
    forall body :: parse(body).Some? ==> body != [] && MayStartJson(body[0])
  }

  /** The only forms that can be taken for JSON are those whose first name starts with a digit, a minus sign, or one
      of three letters; no other form is, such as one that starts with the SSID. */
  lemma NotTakenAsJson(fields: seq<Field>, parse: Parser)
    requires NeedsJsonStart(parse)
    requires fields == [] || fields[0].name == [] || !IsSafe(fields[0].name[0]) || !MayStartJson(fields[0].name[0])
    ensures parse(Encode(fields)) == None
  {
    if fields != [] {
      var f := fields[0];
      EncodeLeads(fields);
      assert f.Print()[0] == Encode(fields)[..|f.Print()|][0] == Encode(fields)[0];
      if f.name != [] {
        assert f.Print()[0] == Quote(f.name[0])[0];
      }
    }
  }

  lemma NoFields(fields: seq<Field>)
    requires Encode(fields) == []
    ensures Lookup(fields, SSID) == None
  {
  }

  lemma {:induction false} EncodeIsCString(fields: seq<Field>)
    ensures CString(Encode(fields))
  {
    if fields != [] {
      EncodeIsCString(fields[1..]);
      QuoteAllIsPlain(fields[0].name);
      QuoteAllIsPlain(fields[0].value);
    }
  }

  /** An SSID of 32 bytes is legal, but if none of them is safe in a form it arrives as ten of them and a stump. */
  lemma {:induction false} LongSsidIsCut(v: seq<byte>)
    requires |v| >= 11 && (forall i :: 0 <= i < |v| ==> !IsSafe(v[i]) && v[i] != SPACE && v[i] != NUL)
    ensures UpToNul(Decode(Fit(QuoteAll(v), 33))) == v[..10] + [PERCENT, HexChar(v[10] / 16)]
  {
    ThreeEach(v);
    DecodeUndoesQuote(v, 32);
    CutThrees(v, 10);
    CutHasNoNul(v, 32);
  }

  lemma {:induction false} ThreeEach(v: seq<byte>)
    requires forall i :: 0 <= i < |v| ==> !IsSafe(v[i]) && v[i] != SPACE
    ensures |QuoteAll(v)| == 3 * |v|
  {
    if v != [] {
      ThreeEach(v[1..]);
    }
  }

  lemma {:induction false} CutThrees(v: seq<byte>, n: nat)
    requires n < |v| && forall i :: 0 <= i < |v| ==> !IsSafe(v[i]) && v[i] != SPACE
    ensures Cut(v, 3 * n + 2) == v[..n] + [PERCENT, HexChar(v[n] / 16)]
  {
    if n > 0 {
      CutThrees(v[1..], n - 1);
    }
  }
}
