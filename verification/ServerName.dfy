/**
 The host name a TLS client asks for, read off a captured packet (pi/sniffer.py,
 `_extract_sni`): the ClientHello of RFC 8446 section 4.1.2 inside a record of section
 5.1, and the server_name extension of RFC 6066 section 3.

 A packet is whatever the capture saw, so it can be any prefix of what the client sent, and
 it can go on after the ClientHello.  Decoding the name's bytes as ASCII is left out.
 */
module ServerName {
  import opened Options
  import opened Bytes

  const RECORD_HANDSHAKE: byte := 0x16
  const CLIENT_HELLO: byte := 0x01
  const EXT_SERVER_NAME: nat := 0
  const HOST_NAME: byte := 0

  // ----- the sender

  datatype Extension =
    | Other(kind: nat, data: seq<byte>)
    | Names(nameType: byte, name: seq<byte>, rest: seq<byte>)   // server_name: first entry, and the rest
  {
    predicate Valid() {
      match this
      case Other(kind, data) => kind != EXT_SERVER_NAME && kind < 0x1_0000 && |data| < 0x1_0000
      case Names(_, name, rest) => |name| + |rest| < 0x1_0000 - 5
    }

    function Kind(): nat {
      if Other? then kind else EXT_SERVER_NAME
    }

    /** The length of the extension's data. */
    function Len(): nat {
      if Other? then |data| else 5 + |name| + |rest|
    }

    function Data(): (bs: seq<byte>)
      requires Valid()
      ensures |bs| == Len() < 0x1_0000
    {
      match this
      case Other(_, data) => data
      case Names(nameType, name, rest) =>
        PutU16(3 + |name| + |rest|) + ([nameType] + (PutU16(|name|) + (name + rest)))
    }

    function Encode(): (bs: seq<byte>)
      requires Valid()
      ensures |bs| == 4 + Len()
    {
      PutU16(Kind()) + (PutU16(Len()) + Data())
    }
  }

  function EncodeAll(exts: seq<Extension>): seq<byte>
    requires forall e :: e in exts ==> e.Valid()
  {
    if exts == [] then [] else exts[0].Encode() + EncodeAll(exts[1..])
  }

  /** A ClientHello in its record; `record` is the record's version and length, `length` the
      handshake length, which the reader never looks at. */
  datatype Hello = Hello(
    record: seq<byte>, length: seq<byte>, version: seq<byte>, random: seq<byte>,
    session: seq<byte>, suites: seq<byte>, compression: seq<byte>, extensions: seq<Extension>)
  {
    predicate Valid() {
      && |record| == 4 && |length| == 3 && |version| == 2 && |random| == 32
      && |session| < 256 && |suites| < 0x1_0000 && |compression| < 256
      && (forall e :: e in extensions ==> e.Valid())
      && |EncodeAll(extensions)| < 0x1_0000
    }

    function Encode(): seq<byte>
      requires Valid()
    {
      Fixed() + Variable()
    }

    function Fixed(): (bs: seq<byte>)
      requires Valid()
      ensures |bs| == 43 && bs[0] == RECORD_HANDSHAKE && bs[5] == CLIENT_HELLO
    {
      [RECORD_HANDSHAKE] + record + [CLIENT_HELLO] + length + version + random
    }

    /** The parts of variable length. */
    function Variable(): seq<byte>
      requires Valid()
    {
      [|session|] + (session + (PutU16(|suites|) + (suites + ([|compression|] + (compression + Block())))))
    }

    function Block(): seq<byte>
      requires Valid()
    {
      PutU16(|EncodeAll(extensions)|) + EncodeAll(extensions)
    }

    /** Where the extension block starts; a client of before TLS 1.3 may stop here. */
    function BlockAt(): nat {
      47 + |session| + |suites| + |compression|
    }
  }

  /** A server_name entry, and where its name stands. */
  datatype Entry = Entry(nameType: byte, name: seq<byte>, start: nat)

  /** The first entry of the first server_name extension of a block that starts at `pos`. */
  function FirstEntry(exts: seq<Extension>, pos: nat): (entry: Option<Entry>)
    ensures entry.Some? ==> entry.value.start >= pos + 9
  {
    if exts == [] then None
    else if exts[0].Names? then Some(Entry(exts[0].nameType, exts[0].name, pos + 9))
    else FirstEntry(exts[1..], pos + 4 + exts[0].Len())
  }

  /** The stretch of a packet from `start` up to `end`. */
  datatype Span = Span(start: nat, end: nat)

  /** Where a reader that has seen `k` bytes should find the name. */
  function Expected(exts: seq<Extension>, pos: nat, k: nat): Option<Span> {
    match FirstEntry(exts, pos)
    case None => None
    case Some(e) =>
      if e.nameType == HOST_NAME && e.start + |e.name| <= k then Some(Span(e.start, e.start + |e.name|)) else None
  }

  // ----- the reader

  /** The extension walk of the reader, from `pos`. */
  function Walk(payload: seq<byte>, pos: nat, end: nat): (span: Option<Span>)
    ensures span.Some? ==> pos + 9 <= span.value.start <= span.value.end <= |payload|
    decreases |payload| - pos
  {
    if pos + 4 > end || pos + 4 > |payload| then None
    else if U16(payload, pos) == EXT_SERVER_NAME then NameAt(payload, pos + 4)
    else Walk(payload, pos + 4 + U16(payload, pos + 2), end)
  }

  function NameAt(payload: seq<byte>, pos: nat): Option<Span> {
    if pos + 5 > |payload| then None
    else
      var end := pos + 5 + U16(payload, pos + 3);
      if payload[pos + 2] == HOST_NAME && end <= |payload| then Some(Span(pos + 5, end)) else None
  }

  /** Skipping a one-byte or two-byte length and what it counts; `None` past the end. */
  function Skip8(payload: seq<byte>, pos: nat): Option<nat> {
    if pos >= |payload| then None
    else
      var next := pos + 1 + payload[pos];
      if next + 2 > |payload| then None else Some(next)
  }

  function Skip16(payload: seq<byte>, pos: nat): Option<nat>
    requires pos + 2 <= |payload|
  {
    var next := pos + 2 + U16(payload, pos);
    if next >= |payload| then None else Some(next)
  }

  /** Where the reader gets behind the fixed-length start: nowhere, or to the extension block. */
  function BlockStart(payload: seq<byte>): (start: Option<nat>)
    ensures start.Some? ==> 47 <= start.value <= |payload| - 2
  {
    match Skip8(payload, 43)
    case None => None
    case Some(suites) =>
      match Skip16(payload, suites)
      case None => None
      case Some(compression) => Skip8(payload, compression)
  }

  /** The extension block of a packet that starts like a ClientHello. */
  function HelloBlock(payload: seq<byte>): (start: Option<nat>)
    ensures start.Some? ==> 47 <= start.value <= |payload| - 2
  {
    if |payload| < 5 || payload[0] != RECORD_HANDSHAKE then None
    else if 5 >= |payload| || payload[5] != CLIENT_HELLO then None
    else BlockStart(payload)
  }

  function Find(payload: seq<byte>): (span: Option<Span>)
    ensures span.Some? ==> 56 <= span.value.start <= span.value.end <= |payload|
  {
    match HelloBlock(payload)
    case None => None
    case Some(p) => Walk(payload, p + 2, p + 2 + U16(payload, p))
  }

  function Read(payload: seq<byte>): Option<seq<byte>> {
    var span := Find(payload);
    if span.Some? then Some(payload[span.value.start..span.value.end]) else None
  }

  /** `_extract_sni`, up to the extensions: a cursor moves over the packet. */
  method SkipToExtensions(payload: seq<byte>) returns (start: Option<nat>)
    ensures start == HelloBlock(payload)
  {
    start := None;
    if |payload| < 5 || payload[0] != RECORD_HANDSHAKE {
      return;
    }
    var pos := 5;
    if pos >= |payload| || payload[pos] != CLIENT_HELLO {
      return;
    }
    pos := pos + 4;
    pos := pos + 2 + 32;
    if pos >= |payload| {
      return;
    }
    var sidLen := payload[pos];
    pos := pos + 1 + sidLen;
    if pos + 2 > |payload| {
      return;
    }
    assert Skip8(payload, 43) == Some(pos);
    var csLen := U16(payload, pos);
    pos := pos + 2 + csLen;
    if pos >= |payload| {
      return;
    }
    assert Skip16(payload, 44 + sidLen as int) == Some(pos);
    var cmLen := payload[pos];
    pos := pos + 1 + cmLen;
    if pos + 2 > |payload| {
      return;
    }
    start := Some(pos);
  }

  /** `_extract_sni`: the cursor goes on over the extensions. */
  method ExtractSni(payload: seq<byte>) returns (host: Option<seq<byte>>)
    ensures host == Read(payload)
  {
    var start := SkipToExtensions(payload);
    if start.None? {
      return None;
    }
    var pos := start.value;
    var extLen := U16(payload, pos);
    pos := pos + 2;
    var extEnd := pos + extLen;
    while pos + 4 <= extEnd && pos + 4 <= |payload|
      invariant 0 <= pos
      invariant Find(payload) == Walk(payload, pos, extEnd)
      decreases |payload| - pos
    {
      var extType := U16(payload, pos);
      var extDataLen := U16(payload, pos + 2);
      pos := pos + 4;
      if extType == EXT_SERVER_NAME {
        assert Find(payload) == NameAt(payload, pos);
        if pos + 5 <= |payload| {
          var nameType := payload[pos + 2];
          var nameLen := U16(payload, pos + 3);
          if nameType == HOST_NAME && pos + 5 + nameLen <= |payload| {
            return Some(payload[pos + 5..pos + 5 + nameLen]);
          }
        }
        return None;
      }
      pos := pos + extDataLen;
    }
    host := None;
  }

  // ----- the reader undoes the sender

  /** A number and a byte of the stream, seen through a packet. */
  lemma SeesU16(payload: seq<byte>, full: seq<byte>, pos: nat)
    requires payload <= full && pos + 2 <= |payload|
    ensures U16(payload, pos) == U16(full, pos)
  {
  }

  /** What the reader relies on, for one extension and for a block of them. */
  ghost predicate Stands(e: Extension, full: seq<byte>, pos: nat) {
    && pos + 4 + e.Len() <= |full|
    && U16(full, pos) == e.Kind() && (e.Kind() == EXT_SERVER_NAME <==> e.Names?)
    && U16(full, pos + 2) == e.Len()
    && (e.Names? ==> full[pos + 6] == e.nameType && U16(full, pos + 7) == |e.name| && At(full, pos + 9, e.name))
  }

  ghost predicate AllStand(exts: seq<Extension>, full: seq<byte>, pos: nat) {
    exts == [] || (Stands(exts[0], full, pos) && AllStand(exts[1..], full, pos + 4 + exts[0].Len()))
  }

  /** The data of a server_name extension. */
  lemma NamesStand(nameType: byte, name: seq<byte>, rest: seq<byte>, s: seq<byte>, pos: nat)
    requires |name| + |rest| < 0x1_0000 - 5
    requires At(s, pos, PutU16(3 + |name| + |rest|) + ([nameType] + (PutU16(|name|) + (name + rest))))
    ensures pos + 5 <= |s| && s[pos + 2] == nameType && U16(s, pos + 3) == |name| && At(s, pos + 5, name)
  {
    hide At, PutU16, U16;
    AtSplit(s, pos, PutU16(3 + |name| + |rest|), [nameType] + (PutU16(|name|) + (name + rest)));
    AtSplit(s, pos + 2, [nameType], PutU16(|name|) + (name + rest));
    SeeByte(s, s, pos + 2, nameType);
    AtSplit(s, pos + 3, PutU16(|name|), name + rest);
    SeeU16(s, s, pos + 3, |name|);
    AtSplit(s, pos + 5, name, rest);
  }

  /** Any extension, header and data. */
  lemma HeaderStands(kind: nat, data: seq<byte>, s: seq<byte>, pos: nat)
    requires kind < 0x1_0000 && |data| < 0x1_0000 && At(s, pos, PutU16(kind) + (PutU16(|data|) + data))
    ensures pos + 4 + |data| <= |s| && U16(s, pos) == kind && U16(s, pos + 2) == |data| && At(s, pos + 4, data)
  {
    AtSplit(s, pos, PutU16(kind), PutU16(|data|) + data);
    SeeU16(s, s, pos, kind);
    AtSplit(s, pos + 2, PutU16(|data|), data);
    SeeU16(s, s, pos + 2, |data|);
  }

  lemma EncodedStands(e: Extension, s: seq<byte>, pos: nat)
    requires e.Valid() && At(s, pos, e.Encode())
    ensures Stands(e, s, pos)
  {
    hide At, PutU16, U16;
    HeaderStands(e.Kind(), e.Data(), s, pos);
    if e.Names? {
      NamesStand(e.nameType, e.name, e.rest, s, pos + 4);
    }
  }

  lemma FirstOfAll(exts: seq<Extension>, full: seq<byte>, pos: nat)
    requires forall e :: e in exts ==> e.Valid()
    requires exts != [] && At(full, pos, EncodeAll(exts))
    ensures Stands(exts[0], full, pos) && At(full, pos + 4 + exts[0].Len(), EncodeAll(exts[1..]))
  {
    hide At, PutU16, U16, Extension.Encode, Stands;
    var e := exts[0];
    AtSplit(full, pos, e.Encode(), EncodeAll(exts[1..]));
    EncodedStands(e, full, pos);
  }

  lemma {:induction false} EncodedAllStand(exts: seq<Extension>, full: seq<byte>, pos: nat)
    requires forall e :: e in exts ==> e.Valid()
    requires At(full, pos, EncodeAll(exts))
    ensures AllStand(exts, full, pos)
    decreases exts
  {
    hide At;
    if exts != [] {
      FirstOfAll(exts, full, pos);
      EncodedAllStand(exts[1..], full, pos + 4 + exts[0].Len());
    }
  }

  /** The number of bytes of an extension block. */
  function Size(exts: seq<Extension>): nat {
    if exts == [] then 0 else 4 + exts[0].Len() + Size(exts[1..])
  }

  lemma {:induction false} EncodedSize(exts: seq<Extension>)
    requires forall e :: e in exts ==> e.Valid()
    ensures |EncodeAll(exts)| == Size(exts)
    decreases exts
  {
    if exts != [] {
      EncodedSize(exts[1..]);
    }
  }

  /** Finding the name of a server_name extension in a packet. */
  lemma FindsHere(e: Extension, payload: seq<byte>, full: seq<byte>, pos: nat)
    requires e.Names? && payload <= full && Stands(e, full, pos)
    ensures NameAt(payload, pos + 4) ==
              if e.nameType == HOST_NAME && pos + 9 + |e.name| <= |payload| then Some(Span(pos + 9, pos + 9 + |e.name|))
              else None
  {
    if pos + 9 <= |payload| {
      SeesU16(payload, full, pos + 7);
    }
  }

  /** The walk over an extension block, cut anywhere. */
  lemma {:induction false} WalkFinds(exts: seq<Extension>, payload: seq<byte>, full: seq<byte>, pos: nat)
    requires payload <= full && AllStand(exts, full, pos)
    ensures Walk(payload, pos, pos + Size(exts)) == Expected(exts, pos, |payload|)
    decreases exts
  {
    if exts != [] && pos + 4 <= |payload| {
      var e := exts[0];
      SeesU16(payload, full, pos);
      SeesU16(payload, full, pos + 2);
      if e.Names? {
        FindsHere(e, payload, full, pos);
      } else {
        WalkFinds(exts[1..], payload, full, pos + 4 + e.Len());
      }
    }
  }

  /** A name that was found is the one the client wrote. */
  lemma {:induction false} EntryStands(exts: seq<Extension>, full: seq<byte>, pos: nat)
    requires AllStand(exts, full, pos) && FirstEntry(exts, pos).Some?
    ensures var e := FirstEntry(exts, pos).value; At(full, e.start, e.name)
    decreases exts
  {
    if exts[0].Other? {
      EntryStands(exts[1..], full, pos + 4 + exts[0].Len());
    }
  }

  /** What the reader relies on, for a whole ClientHello. */
  ghost predicate HelloStands(h: Hello, full: seq<byte>) {
    var suitesAt := 44 + |h.session|;
    var compressionAt := suitesAt + 2 + |h.suites|;
    && h.BlockAt() + 2 + Size(h.extensions) <= |full|
    && full[0] == RECORD_HANDSHAKE && full[5] == CLIENT_HELLO
    && full[43] == |h.session|
    && U16(full, suitesAt) == |h.suites|
    && full[compressionAt] == |h.compression|
    && U16(full, h.BlockAt()) == Size(h.extensions)
    && AllStand(h.extensions, full, h.BlockAt() + 2)
  }

  /** A field with an 8-bit length in front. */
  lemma Field8(full: seq<byte>, field: seq<byte>, rest: seq<byte>, pos: nat)
    requires |field| < 256 && At(full, pos, [|field|] + (field + rest))
    ensures pos < |full| && full[pos] == |field| && At(full, pos + 1 + |field|, rest)
  {
    hide At, PutU16, U16;
    AtSplit(full, pos, [|field|], field + rest);
    SeeByte(full, full, pos, |field|);
    AtSplit(full, pos + 1, field, rest);
  }

  /** A field with a 16-bit length in front. */
  lemma Field16(full: seq<byte>, field: seq<byte>, rest: seq<byte>, pos: nat)
    requires |field| < 0x1_0000 && At(full, pos, PutU16(|field|) + (field + rest))
    ensures pos + 2 <= |full| && U16(full, pos) == |field| && At(full, pos + 2 + |field|, rest)
  {
    hide At, PutU16, U16;
    AtSplit(full, pos, PutU16(|field|), field + rest);
    SeeU16(full, full, pos, |field|);
    AtSplit(full, pos + 2, field, rest);
  }

  /** The extension block, behind its length. */
  lemma BlockStands(h: Hello, full: seq<byte>)
    requires h.Valid() && At(full, h.BlockAt(), h.Block())
    ensures h.BlockAt() + 2 + Size(h.extensions) <= |full|
    ensures U16(full, h.BlockAt()) == Size(h.extensions) && AllStand(h.extensions, full, h.BlockAt() + 2)
  {
    hide At, PutU16, U16, AllStand, Size, EncodeAll;
    var exts := EncodeAll(h.extensions);
    AtSplit(full, h.BlockAt(), PutU16(|exts|), exts);
    SeeU16(full, full, h.BlockAt(), |exts|);
    EncodedSize(h.extensions);
    EncodedAllStand(h.extensions, full, h.BlockAt() + 2);
    AllStandFit(h.extensions, full, h.BlockAt() + 2);
  }

  lemma {:induction false} AllStandFit(exts: seq<Extension>, full: seq<byte>, pos: nat)
    requires pos <= |full| && AllStand(exts, full, pos)
    ensures pos + Size(exts) <= |full|
    decreases exts
  {
    if exts != [] {
      AllStandFit(exts[1..], full, pos + 4 + exts[0].Len());
    }
  }

  /** The parts of variable length. */
  lemma VariableStands(session: seq<byte>, suites: seq<byte>, compression: seq<byte>, block: seq<byte>, full: seq<byte>)
    requires |session| < 256 && |suites| < 0x1_0000 && |compression| < 256
    requires At(full, 43,
        [|session|] + (session + (PutU16(|suites|) + (suites + ([|compression|] + (compression + block))))))
    ensures 43 < |full| && full[43] == |session|
    ensures var p := 44 + |session|; p + 2 <= |full| && U16(full, p) == |suites|
    ensures var p := 46 + |session| + |suites|; p < |full| && full[p] == |compression|
    ensures At(full, 47 + |session| + |suites| + |compression|, block)
  {
    hide At, PutU16, U16;
    var rest2 := [|compression|] + (compression + block);
    Field8(full, session, PutU16(|suites|) + (suites + rest2), 43);
    Field16(full, suites, rest2, 44 + |session|);
    Field8(full, compression, block, 46 + |session| + |suites|);
  }

  lemma FixedStands(h: Hello, full: seq<byte>)
    requires h.Valid() && At(full, 0, h.Encode())
    ensures |full| >= 43 && full[0] == RECORD_HANDSHAKE && full[5] == CLIENT_HELLO && At(full, 43, h.Variable())
  {
    AtSplit(full, 0, h.Fixed(), h.Variable());
    assert full[0 + 0] == h.Fixed()[0] && full[0 + 5] == h.Fixed()[5];
  }

  lemma EncodedHelloStands(h: Hello, full: seq<byte>)
    requires h.Valid() && At(full, 0, h.Encode())
    ensures HelloStands(h, full)
  {
    hide At, U16, PutU16, AllStand, Size, EncodeAll, Hello.Encode, Hello.Block;
    FixedStands(h, full);
    VariableStands(h.session, h.suites, h.compression, h.Block(), full);
    BlockStands(h, full);
  }

  /** Every packet that is a prefix of a ClientHello and anything behind it: the reader looks for the
      first name in the right place, and finds it exactly when the packet reaches its end. */
  lemma FindsName(h: Hello, payload: seq<byte>, full: seq<byte>)
    requires payload <= full && HelloStands(h, full)
    ensures Find(payload) == Expected(h.extensions, h.BlockAt() + 2, |payload|)
  {
    if h.BlockAt() + 2 <= |payload| {
      SeesU16(payload, full, 44 + |h.session|);
      SeesU16(payload, full, h.BlockAt());
      assert BlockStart(payload) == Some(h.BlockAt());
      WalkFinds(h.extensions, payload, full, h.BlockAt() + 2);
    } else {
      if 46 + |h.session| <= |payload| {
        SeesU16(payload, full, 44 + |h.session|);
      }
      assert BlockStart(payload) == None;
    }
  }

  /** What a reader of a cut-off ClientHello should answer. */
  function Told(h: Hello, k: nat): Option<seq<byte>> {
    match FirstEntry(h.extensions, h.BlockAt() + 2)
    case None => None
    case Some(e) => if e.nameType == HOST_NAME && e.start + |e.name| <= k then Some(e.name) else None
  }

  lemma ReadsName(h: Hello, payload: seq<byte>, full: seq<byte>)
    requires payload <= full && HelloStands(h, full)
    ensures Read(payload) == Told(h, |payload|)
  {
    FindsName(h, payload, full);
    var e := FirstEntry(h.extensions, h.BlockAt() + 2);
    if e.Some? && e.value.start + |e.value.name| <= |payload| {
      EntryStands(h.extensions, full, h.BlockAt() + 2);
      SeeBytes(payload, full, e.value.start, e.value.name);
    }
  }

  /** The round trip, for every packet that is a prefix of a ClientHello and anything behind it: the
      host name of the first server_name extension if the packet contains all of it, else nothing. */
  lemma ReaderUndoesSender(h: Hello, tail: seq<byte>, payload: seq<byte>)
    requires h.Valid() && payload <= h.Encode() + tail
    ensures Read(payload) == Told(h, |payload|)
  {
    AtStart(h.Encode(), tail);
    EncodedHelloStands(h, h.Encode() + tail);
    ReadsName(h, payload, h.Encode() + tail);
  }

  /** A ClientHello without an extension block, cut anywhere, names no host. */
  lemma NoExtensionsNoName(h: Hello, payload: seq<byte>)
    requires h.Valid() && payload <= h.Encode() && |payload| <= h.BlockAt()
    ensures Read(payload) == None
  {
    assert payload <= h.Encode() + [];
    ReaderUndoesSender(h, [], payload);
  }

  /** A server_name extension without data, at the very end of the block: the reader takes the name from whatever
      stands behind the block. */
  lemma EmptyNameReadsOn(payload: seq<byte>, p: nat)
    requires HelloBlock(payload) == Some(p) && p + 6 <= |payload|
    requires U16(payload, p) == 4 && U16(payload, p + 2) == 0
    ensures Read(payload) ==
            if p + 11 <= |payload| && payload[p + 8] == 0 && p + 11 + U16(payload, p + 9) <= |payload|
            then Some(payload[p + 11..p + 11 + U16(payload, p + 9)]) else None
  {
  }

  /** On arbitrary bytes the answer is nothing, or a stretch of the packet behind the headers it checked. */
  lemma ReadAnswersSlice(payload: seq<byte>)
    ensures Read(payload).Some? ==>
              && |payload| > 5 && payload[0] == 22 && payload[5] == 1
              && exists i: nat, j: nat :: 56 <= i <= j <= |payload| && Read(payload) == Some(payload[i..j])
  {
  }
}
