/** The hand-built ClientHello, and the reader for the server's first reply. */
module ClientHello {
  import opened Options
  import opened Text

  type Byte = x: int | 0 <= x < 256

  type Bytes = seq<Byte>

  function U16(n: nat): (b: Bytes)
    requires n < 0x1_0000
    ensures |b| == 2
  {
    [n / 256, n % 256]
  }

  /** Two bytes as a number. */
  function Join16(high: Byte, low: Byte): (n: nat)
    ensures n < 0x1_0000
  {
    high as int * 256 + low as int
  }

  function U24(n: nat): (b: Bytes)
    ensures |b| == 3
  {
    [n / 0x1_0000 % 256, n / 256 % 256, n % 256]
  }

  /** A value behind its length in two bytes. */
  function WithLength16(data: Bytes): Bytes
    requires |data| < 0x1_0000
  {
    U16(|data|) + data
  }

  const TLS1 := 0x0301
  const TLS1_2 := 0x0303

  // ------------------------------------------------------------------ extensions

  datatype Extension = Extension(kind: nat, data: Bytes)

  function NameBytes(name: string): (b: Bytes)
    ensures |b| == |name|
  {
    seq(|name|, i requires 0 <= i < |name| => name[i] as int % 256)
  }

  /** Digits and dots only, or a colon: no server name is sent. */
  predicate IsIpLiteral(host: string) {
    (host != "" && forall k :: 0 <= k < |host| ==> IsDigit(host[k], 10) || host[k] == '.') || ':' in host
  }

  /** An address, or a name short enough for its field. */
  predicate Nameable(serverName: string) {
    IsIpLiteral(serverName) || |serverName| < 0xfff0
  }

  function PairBytes(values: seq<nat>): (b: Bytes)
    requires forall i :: 0 <= i < |values| ==> values[i] < 0x1_0000
    ensures |b| == 2 * |values|
  {
    if values == [] then [] else U16(values[0]) + PairBytes(values[1..])
  }

  function ServerNameData(name: Bytes): (b: Bytes)
    requires |name| + 3 < 0x1_0000
    ensures |b| == |name| + 5
  {
    WithLength16([0] + U16(|name|) + name)
  }

  const NAMED_GROUPS := [0x001d, 0x0017, 0x0018]

  const SIGNATURE_ALGORITHMS := [0x0401, 0x0501, 0x0601, 0x0403, 0x0503, 0x0201, 0x0203]

  /** The extensions offered: name unless an address, groups, point formats, and from TLS 1.2 the algorithms. */
  function Extensions(serverName: string, version: nat): (e: seq<Extension>)
    requires Nameable(serverName)
  {
    (if IsIpLiteral(serverName) then [] else [Extension(0x0000, ServerNameData(NameBytes(serverName)))])
    + [Extension(0x000a, WithLength16(PairBytes(NAMED_GROUPS))), Extension(0x000b, [1, 0])]
    + (if version >= TLS1_2 then [Extension(0x000d, WithLength16(PairBytes(SIGNATURE_ALGORITHMS)))] else [])
  }

  method HelloExtensions(serverName: string, version: nat) returns (extensions: seq<Extension>)
    requires Nameable(serverName)
    ensures extensions == Extensions(serverName, version)
  {
    extensions := [
      Extension(0x000a, WithLength16(PairBytes(NAMED_GROUPS))),
      Extension(0x000b, [1, 0])];
    if !IsIpLiteral(serverName) {
      extensions := [Extension(0x0000, ServerNameData(NameBytes(serverName)))] + extensions;
    }
    if version >= TLS1_2 {
      extensions := extensions + [Extension(0x000d, WithLength16(PairBytes(SIGNATURE_ALGORITHMS)))];
    }
  }

  predicate IsExtension(e: Extension) {
    e.kind < 0x1_0000 && |e.data| < 0x1_0000
  }

  function ExtensionBytes(e: Extension): (b: Bytes)
    requires IsExtension(e)
    ensures |b| == 4 + |e.data|
  {
    U16(e.kind) + WithLength16(e.data)
  }

  function AllBytes(extensions: seq<Extension>): Bytes
    requires forall i :: 0 <= i < |extensions| ==> IsExtension(extensions[i])
  {
    if extensions == [] then [] else ExtensionBytes(extensions[0]) + AllBytes(extensions[1..])
  }

  // --------------------------------------------------------------------- building

  /** How long the extensions are. */
  function ExtensionsSize(serverName: string, version: nat): nat {
    (if IsIpLiteral(serverName) then 0 else |serverName| + 9) + 12 + 6
    + if version >= TLS1_2 then 20 else 0
  }

  function BodySize(version: nat, suites: seq<nat>, serverName: string): nat {
    2 + 32 + 1 + 2 + 2 * |suites| + 2 + if version >= TLS1 then 2 + ExtensionsSize(serverName, version) else 0
  }

  /** Whether every number fits its field; writing one that does not throws. */
  predicate Fits(version: nat, suites: seq<nat>, serverName: string) {
    && version < 0x1_0000 && (forall i :: 0 <= i < |suites| ==> suites[i] < 0x1_0000)
    && 4 + BodySize(version, suites, serverName) < 0x1_0000
  }

  lemma BytesOfCons(first: Extension, rest: seq<Extension>)
    requires IsExtension(first) && forall i :: 0 <= i < |rest| ==> IsExtension(rest[i])
    ensures forall i :: 0 <= i < |[first] + rest| ==> IsExtension(([first] + rest)[i])
    ensures |AllBytes([first] + rest)| == 4 + |first.data| + |AllBytes(rest)|
  {
    assert ([first] + rest)[1..] == rest;
  }

  /** The extensions every hello that has any carries. */
  function Unnamed(version: nat): seq<Extension> {
    [Extension(0x000a, WithLength16(PairBytes(NAMED_GROUPS))), Extension(0x000b, [1, 0])]
    + if version >= TLS1_2 then [Extension(0x000d, WithLength16(PairBytes(SIGNATURE_ALGORITHMS)))] else []
  }

  lemma UnnamedFit(version: nat)
    ensures forall i :: 0 <= i < |Unnamed(version)| ==> IsExtension(Unnamed(version)[i])
    ensures |AllBytes(Unnamed(version))| == 18 + if version >= TLS1_2 then 20 else 0
  {
    var groups := Extension(0x000a, WithLength16(PairBytes(NAMED_GROUPS)));
    var points := Extension(0x000b, [1, 0]);
    var algorithms := Extension(0x000d, WithLength16(PairBytes(SIGNATURE_ALGORITHMS)));
    var last := if version >= TLS1_2 then [algorithms] else [];
    BytesOfCons(algorithms, []);
    assert [algorithms] + [] == [algorithms];
    BytesOfCons(points, last);
    BytesOfCons(groups, [points] + last);
    assert Unnamed(version) == [groups] + ([points] + last);
  }

  lemma ExtensionsFit(serverName: string, version: nat)
    requires Nameable(serverName)
    ensures var e := Extensions(serverName, version);
            (forall i :: 0 <= i < |e| ==> IsExtension(e[i])) && |AllBytes(e)| == ExtensionsSize(serverName, version)
  {
    UnnamedFit(version);
    if IsIpLiteral(serverName) {
      assert Extensions(serverName, version) == Unnamed(version);
    } else {
      var named := Extension(0x0000, ServerNameData(NameBytes(serverName)));
      BytesOfCons(named, Unnamed(version));
      assert Extensions(serverName, version) == [named] + Unnamed(version);
    }
  }

  /** The extensions block behind its length, or nothing for SSL 3.0. */
  function ExtensionBlock(version: nat, serverName: string): (b: Bytes)
    requires version >= TLS1 ==> Nameable(serverName) && ExtensionsSize(serverName, version) < 0x1_0000
    ensures |b| == if version >= TLS1 then 2 + ExtensionsSize(serverName, version) else 0
  {
    if version >= TLS1 then
      ExtensionsFit(serverName, version);
      WithLength16(AllBytes(Extensions(serverName, version)))
    else []
  }

  /** Compression: null only. */
  const COMPRESSION: Bytes := [1, 0]

  function Body(version: nat, suites: seq<nat>, serverName: string, random: Bytes): (b: Bytes)
    requires Fits(version, suites, serverName)
    ensures |random| == 32 ==> |b| == BodySize(version, suites, serverName)
  {
    U16(version) + random + [0] + WithLength16(PairBytes(suites)) + COMPRESSION + ExtensionBlock(version, serverName)
  }

  function Min(a: nat, b: nat): nat {
    if a <= b then a else b
  }

  /** The record, or None when a number does not fit its field. */
  function BuildClientHello(version: nat, suites: seq<nat>, serverName: string, random: Bytes): Option<Bytes>
    requires |random| == 32
  {
    if !Fits(version, suites, serverName) then None
    else
      var body := Body(version, suites, serverName, random);
      Some([0x16] + U16(Min(version, TLS1)) + WithLength16([0x01] + U24(|body|) + body))
  }

  // --------------------------------------------------------------------- decoding

  /** Two bytes as a number, and what follows. */
  function Read16(b: Bytes): Option<(nat, Bytes)> {
    if |b| < 2 then None else Some((Join16(b[0], b[1]), b[2..]))
  }

  /** A value behind a length of two bytes, and what follows. */
  function ReadVector16(b: Bytes): Option<(Bytes, Bytes)> {
    match Read16(b)
    case None => None
    case Some((n, rest)) => if |rest| < n then None else Some((rest[..n], rest[n..]))
  }

  /** A value behind a length of one byte, and what follows. */
  function ReadVector8(b: Bytes): Option<(Bytes, Bytes)> {
    if b == [] then None
    else
      var n := b[0] as int;
      if |b| < 1 + n then None else Some((b[1..1 + n], b[1 + n..]))
  }

  /** An even number of bytes as two-byte numbers. */
  function ReadPairs(b: Bytes): Option<seq<nat>> {
    if b == [] then Some([])
    else if |b| == 1 then None
    else
      match ReadPairs(b[2..])
      case None => None
      case Some(values) => Some([Join16(b[0], b[1])] + values)
  }

  function ReadExtensions(b: Bytes): Option<seq<Extension>>
    decreases |b|
  {
    if b == [] then Some([])
    else
      match Read16(b)
      case None => None
      case Some((kind, rest)) =>
        match ReadVector16(rest)
        case None => None
        case Some((data, others)) =>
          match ReadExtensions(others)
          case None => None
          case Some(extensions) => Some([Extension(kind, data)] + extensions)
  }

  /** The body of a server_name extension: one host name filling the list. */
  function ReadServerName(data: Bytes): Option<Bytes> {
    match ReadVector16(data)
    case None => None
    case Some((list, after)) =>
      if after != [] || list == [] || list[0] != 0 then None
      else
        match ReadVector16(list[1..])
        case None => None
        case Some((name, more)) => if more == [] then Some(name) else None
  }

  datatype Hello = Hello(
    version: nat, random: Bytes, sessionId: Bytes, suites: seq<nat>, compression: Bytes, extensions: seq<Extension>)

  /** The ClientHello body of section 7.4.1.2 of RFC 5246, nothing left over. */
  function ReadHello(body: Bytes): Option<Hello> {
    if |body| < 34 then None
    else
      match ReadVector8(body[34..])
      case None => None
      case Some((sessionId, rest)) =>
        match ReadVector16(rest)
        case None => None
        case Some((suiteBytes, rest')) =>
          match ReadVector8(rest')
          case None => None
          case Some((compression, tail)) =>
            match ReadTail(tail)
            case None => None
            case Some(extensions) =>
              match ReadPairs(suiteBytes)
              case None => None
              case Some(suites) =>
                Some(Hello(Join16(body[0], body[1]), body[2..34], sessionId, suites, compression, extensions))
  }

  /** No extensions, or a block that fills the rest. */
  function ReadTail(tail: Bytes): Option<seq<Extension>> {
    if tail == [] then Some([])
    else
      match ReadVector16(tail)
      case None => None
      case Some((block, after)) => if after == [] then ReadExtensions(block) else None
  }

  datatype Record = Record(recordVersion: nat, hello: Hello)

  /** One handshake record of section 6.2.1 of RFC 5246 holding one ClientHello, every length exact. */
  function Decode(b: Bytes): Option<Record> {
    if |b| < 3 || b[0] != 0x16 then None
    else
      match ReadVector16(b[3..])
      case None => None
      case Some((fragment, after)) =>
        if after != [] || |fragment| < 4 || fragment[0] != 1 then None
        else if Join16(fragment[1], fragment[2]) * 256 + fragment[3] as int != |fragment| - 4 then None
        else
          match ReadHello(fragment[4..])
          case None => None
          case Some(hello) => Some(Record(Join16(b[1], b[2]), hello))
  }

  // ------------------------------------------------------------------- round trips

  lemma NumberReads(n: nat, rest: Bytes)
    requires n < 0x1_0000
    ensures Read16(U16(n) + rest) == Some((n, rest))
  {
    assert (U16(n) + rest)[2..] == rest;
  }

  lemma Vector16Reads(data: Bytes, rest: Bytes)
    requires |data| < 0x1_0000
    ensures ReadVector16(WithLength16(data) + rest) == Some((data, rest))
  {
    NumberReads(|data|, data + rest);
    assert WithLength16(data) + rest == U16(|data|) + (data + rest);
  }

  lemma {:induction false} PairsRead(values: seq<nat>)
    requires forall i :: 0 <= i < |values| ==> values[i] < 0x1_0000
    ensures ReadPairs(PairBytes(values)) == Some(values)
  {
    if values != [] {
      PairsRead(values[1..]);
      var b := PairBytes(values);
      assert b[2..] == PairBytes(values[1..]);
      assert Join16(b[0], b[1]) == values[0];
      assert values == [values[0]] + values[1..];
    }
  }

  lemma OneExtension(b: Bytes, kind: nat, rest: Bytes, data: Bytes, others: Bytes)
    requires Read16(b) == Some((kind, rest)) && ReadVector16(rest) == Some((data, others))
    requires ReadExtensions(others).Some?
    ensures ReadExtensions(b) == Some([Extension(kind, data)] + ReadExtensions(others).value)
  {
  }

  lemma ExtensionParts(e: Extension, rest: Bytes)
    requires IsExtension(e)
    ensures Read16(ExtensionBytes(e) + rest) == Some((e.kind, WithLength16(e.data) + rest))
    ensures ReadVector16(WithLength16(e.data) + rest) == Some((e.data, rest))
  {
    assert ExtensionBytes(e) + rest == U16(e.kind) + (WithLength16(e.data) + rest);
    NumberReads(e.kind, WithLength16(e.data) + rest);
    Vector16Reads(e.data, rest);
  }

  lemma ExtensionReads(e: Extension, rest: Bytes)
    requires IsExtension(e) && ReadExtensions(rest).Some?
    ensures ReadExtensions(ExtensionBytes(e) + rest) == Some([e] + ReadExtensions(rest).value)
  {
    ExtensionParts(e, rest);
    OneExtension(ExtensionBytes(e) + rest, e.kind, WithLength16(e.data) + rest, e.data, rest);
  }

  lemma {:induction false} ExtensionsRead(extensions: seq<Extension>)
    requires forall i :: 0 <= i < |extensions| ==> IsExtension(extensions[i])
    ensures ReadExtensions(AllBytes(extensions)) == Some(extensions)
  {
    if extensions != [] {
      ExtensionsRead(extensions[1..]);
      ExtensionReads(extensions[0], AllBytes(extensions[1..]));
      assert extensions == [extensions[0]] + extensions[1..];
    }
  }

  /** The server_name extension carries exactly the name. */
  lemma ServerNameReads(name: Bytes)
    requires |name| + 3 < 0x1_0000
    ensures ReadServerName(ServerNameData(name)) == Some(name)
  {
    var list := [0] + U16(|name|) + name;
    Vector16Reads(list, []);
    assert WithLength16(list) + [] == WithLength16(list);
    assert list[1..] == WithLength16(name) + [];
    Vector16Reads(name, []);
  }

  lemma TailReads(version: nat, serverName: string)
    requires version >= TLS1 ==> Nameable(serverName) && ExtensionsSize(serverName, version) < 0x1_0000
    ensures ReadTail(ExtensionBlock(version, serverName)) ==
            Some(if version >= TLS1 then Extensions(serverName, version) else [])
  {
    if version >= TLS1 {
      ExtensionsFit(serverName, version);
      var e := Extensions(serverName, version);
      Vector16Reads(AllBytes(e), []);
      assert WithLength16(AllBytes(e)) + [] == WithLength16(AllBytes(e));
      ExtensionsRead(e);
    }
  }

  /** What the hello says, as built. */
  function Offered(version: nat, suites: seq<nat>, serverName: string, random: Bytes): Hello
    requires version >= TLS1 ==> Nameable(serverName)
  {
    Hello(version, random, [], suites, [0], if version >= TLS1 then Extensions(serverName, version) else [])
  }

  lemma PartsRead(head: Bytes, pairs: Bytes, tail: Bytes, body: Bytes)
    requires |head| == 34 && |pairs| < 0x1_0000 && body == head + [0] + WithLength16(pairs) + COMPRESSION + tail
    ensures body[..34] == head
    ensures var rest := WithLength16(pairs) + (COMPRESSION + tail);
            && ReadVector8(body[34..]) == Some(([], rest))
            && ReadVector16(rest) == Some((pairs, COMPRESSION + tail))
    ensures ReadVector8(COMPRESSION + tail) == Some(([0], tail))
  {
    assert body[34..] == [0] + (WithLength16(pairs) + (COMPRESSION + tail));
    assert body[34..][1..] == WithLength16(pairs) + (COMPRESSION + tail);
    Vector16Reads(pairs, COMPRESSION + tail);
    assert (COMPRESSION + tail)[1..2] == [0] && (COMPRESSION + tail)[2..] == tail;
  }

  lemma HeadReads(version: nat, random: Bytes, body: Bytes)
    requires version < 0x1_0000 && |random| == 32 && |body| >= 34 && body[..34] == U16(version) + random
    ensures Join16(body[0], body[1]) == version && body[2..34] == random
  {
    var head := body[..34];
    assert body[0] == head[0] && body[1] == head[1];
    assert body[2..34] == head[2..];
  }

  lemma BodyReads(version: nat, suites: seq<nat>, serverName: string, random: Bytes)
    requires Fits(version, suites, serverName) && |random| == 32
    ensures ReadHello(Body(version, suites, serverName, random)) == Some(Offered(version, suites, serverName, random))
  {
    var body, tail := Body(version, suites, serverName, random), ExtensionBlock(version, serverName);
    PartsRead(U16(version) + random, PairBytes(suites), tail, body);
    HeadReads(version, random, body);
    PairsRead(suites);
    TailReads(version, serverName);
  }

  /** Decoding what was built gives back every field, with every nested length exact; it is built exactly when it fits. */
  lemma DecodesWhatWasBuilt(version: nat, suites: seq<nat>, serverName: string, random: Bytes)
    requires |random| == 32
    ensures var built := BuildClientHello(version, suites, serverName, random);
            if Fits(version, suites, serverName) then
              && built.Some?
              && Decode(built.value) ==
                 Some(Record(Min(version, TLS1), Offered(version, suites, serverName, random)))
            else built.None?
  {
    if Fits(version, suites, serverName) {
      BodyReads(version, suites, serverName, random);
      FrameReads(Min(version, TLS1), Body(version, suites, serverName, random));
    }
  }

  lemma FragmentReads(body: Bytes, fragment: Bytes)
    requires |body| < 0x1_0000 && fragment == [0x01] + U24(|body|) + body
    ensures |fragment| == 4 + |body| && fragment[0] == 1 && fragment[4..] == body
    ensures Join16(fragment[1], fragment[2]) * 256 + fragment[3] as int == |body|
  {
    var n := |body|;
    assert n / 0x1_0000 == 0 && n / 256 < 256;
    assert U24(n) == [0, n / 256, n % 256];
    assert fragment[1] == 0 && fragment[2] == n / 256 && fragment[3] == n % 256;
  }

  lemma RecordReads(version: nat, fragment: Bytes, b: Bytes)
    requires version < 0x1_0000 && |fragment| < 0x1_0000 && b == [0x16] + U16(version) + WithLength16(fragment)
    ensures |b| >= 3 && b[0] == 0x16 && Join16(b[1], b[2]) == version && ReadVector16(b[3..]) == Some((fragment, []))
  {
    assert b[3..] == WithLength16(fragment) + [];
    Vector16Reads(fragment, []);
  }

  lemma PartsDecode(b: Bytes, version: nat, fragment: Bytes, body: Bytes)
    requires |b| >= 3 && b[0] == 0x16 && Join16(b[1], b[2]) == version && ReadVector16(b[3..]) == Some((fragment, []))
    requires |fragment| == 4 + |body| && fragment[0] == 1 && fragment[4..] == body
    requires Join16(fragment[1], fragment[2]) * 256 + fragment[3] as int == |body|
    requires ReadHello(body).Some?
    ensures Decode(b) == Some(Record(version, ReadHello(body).value))
  {
  }

  lemma FrameReads(version: nat, body: Bytes)
    requires version < 0x1_0000 && |body| + 4 < 0x1_0000 && ReadHello(body).Some?
    ensures Decode([0x16] + U16(version) + WithLength16([0x01] + U24(|body|) + body)) ==
            Some(Record(version, ReadHello(body).value))
  {
    var fragment := [0x01] + U24(|body|) + body;
    var b := [0x16] + U16(version) + WithLength16(fragment);
    FragmentReads(body, fragment);
    RecordReads(version, fragment, b);
    PartsDecode(b, version, fragment, body);
  }

  /** The name extension of a built hello holds the host name's bytes, and is left out for an address. */
  lemma NameIsSent(version: nat, suites: seq<nat>, serverName: string, random: Bytes)
    requires Fits(version, suites, serverName) && version >= TLS1
    ensures var e := Offered(version, suites, serverName, random).extensions;
            if IsIpLiteral(serverName) then forall i :: 0 <= i < |e| ==> e[i].kind != 0
            else e[0].kind == 0 && ReadServerName(e[0].data) == Some(NameBytes(serverName))
  {
    if !IsIpLiteral(serverName) {
      ServerNameReads(NameBytes(serverName));
    }
  }

  // ------------------------------------------------------------------- the reply

  datatype ServerReply =
    | ServerHello(version: nat, cipherSuite: nat)
    | Alert(description: nat)
    | Incomplete
    | Unexpected

  function At16(b: Bytes, i: nat): nat
    requires i + 2 <= |b|
  {
    Join16(b[i], b[i + 1])
  }

  function ReadRecord(kind: Byte, record: Bytes): (reply: ServerReply)
    ensures !reply.Incomplete?
  {
    if kind == 0x15 && |record| >= 2 then Alert(record[1] as int)
    else if kind != 0x16 || record == [] || record[0] != 0x02 || |record| < 4 + 2 + 32 + 1 then Unexpected
    else
      var cipherOffset := 4 + 2 + 32 + 1 + record[4 + 2 + 32] as int;
      if |record| < cipherOffset + 2 then Unexpected
      else ServerHello(At16(record, 4), At16(record, cipherOffset))
  }

  /** Reads the first record the server sent back, if it is complete. */
  function ReadServerReply(data: Bytes): ServerReply {
    if |data| < 5 then Incomplete
    else
      var length := At16(data, 3);
      if |data| < 5 + length then Incomplete else ReadRecord(data[0], data[5..5 + length])
  }

  /** Once there is an answer, more bytes do not change it. */
  lemma AnswerIsStable(data: Bytes, more: Bytes)
    ensures !ReadServerReply(data).Incomplete? ==> ReadServerReply(data + more) == ReadServerReply(data)
  {
    if !ReadServerReply(data).Incomplete? {
      var length := At16(data, 3);
      assert (data + more)[5..5 + length] == data[5..5 + length];
    }
  }

  function Joined(chunks: seq<Bytes>): Bytes {
    if chunks == [] then [] else Joined(chunks[..|chunks| - 1]) + chunks[|chunks| - 1]
  }

  lemma {:induction false} JoinedExtends(chunks: seq<Bytes>, i: nat) returns (more: Bytes)
    requires i <= |chunks|
    ensures Joined(chunks) == Joined(chunks[..i]) + more
  {
    if i == |chunks| {
      assert chunks[..i] == chunks;
      more := [];
    } else {
      var front := chunks[..|chunks| - 1];
      var rest := JoinedExtends(front, i);
      assert front[..i] == chunks[..i];
      more := rest + chunks[|chunks| - 1];
    }
  }

  /** The exchange answers as soon as it can; however the bytes were cut up, it is the answer to all of them. */
  method ExchangeHello(chunks: seq<Bytes>) returns (reply: ServerReply)
    ensures reply == ReadServerReply(Joined(chunks))
  {
    var received: Bytes := [];
    for i := 0 to |chunks|
      invariant received == Joined(chunks[..i])
    {
      assert chunks[..i + 1][..i] == chunks[..i];
      received := received + chunks[i];
      reply := ReadServerReply(received);
      if !reply.Incomplete? {
        ghost var more := JoinedExtends(chunks, i + 1);
        AnswerIsStable(received, more);
        return;
      }
    }
    assert chunks[..|chunks|] == chunks;
    reply := ReadServerReply(received);
  }

  /** A ServerHello record of section 7.4.1.3 of RFC 5246, up to its cipher suite; what follows is not read. */
  function ServerHelloRecord(recordVersion: nat, version: nat, random: Bytes, sessionId: Bytes, suite: nat, rest: Bytes)
    : Bytes
    requires recordVersion < 0x1_0000 && version < 0x1_0000 && suite < 0x1_0000
    requires |random| == 32 && |sessionId| < 256 && |rest| < 0x1000
  {
    var body := U16(version) + random + [|sessionId|] + sessionId + U16(suite) + rest;
    [0x16] + U16(recordVersion) + WithLength16([0x02] + U24(|body|) + body)
  }

  /** The reader finds the version and the suite a server chose. */
  lemma ServerHelloReads(
      recordVersion: nat, version: nat, random: Bytes, sessionId: Bytes, suite: nat, rest: Bytes, more: Bytes)
    requires recordVersion < 0x1_0000 && version < 0x1_0000 && suite < 0x1_0000
    requires |random| == 32 && |sessionId| < 256 && |rest| < 0x1000
    ensures ReadServerReply(ServerHelloRecord(recordVersion, version, random, sessionId, suite, rest) + more) ==
            ServerHello(version, suite)
  {
    var body := U16(version) + random + [|sessionId|] + sessionId + U16(suite) + rest;
    var record := [0x02] + U24(|body|) + body;
    var data := ServerHelloRecord(recordVersion, version, random, sessionId, suite, rest);
    assert At16(data, 3) == |record|;
    assert data[5..5 + |record|] == record;
    assert record[4 + 2 + 32] as int == |sessionId|;
    assert At16(record, 4) == version;
    assert At16(record, 4 + 2 + 32 + 1 + |sessionId|) == suite;
    AnswerIsStable(data, more);
  }
}
