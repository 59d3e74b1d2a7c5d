/**
 Framing of SOCKS5 messages (sections 3 to 6 of RFC 1928): reading a client's greeting and
 request and an upstream's reply from a byte stream, and writing a request again.
 */
module Socks5 {
  import opened Wrappers

  newtype byte = x: int | 0 <= x < 256

  type bytes = seq<byte>

  const VERSION: byte := 5
  const CONNECT: byte := 1
  const NO_AUTH: byte := 0
  const USER_PASS: byte := 2
  const NO_ACCEPTABLE: byte := 255
  const ATYP_IPV4: byte := 1
  const ATYP_DOMAIN: byte := 3
  const ATYP_IPV6: byte := 4
  const COMMAND_NOT_SUPPORTED: byte := 7
  const GENERAL_FAILURE: byte := 1

  // Why a read fails. Incomplete: the stream ended first. The two refusals have already
  // been answered to the client.
  datatype Fault =
    | Incomplete | BadVersion | NoMethod | BadCommand
    | BadAddressType | BadDomain | BadAddress | BadName | TooLong

  // A message and how many bytes it took, or the fault; and what was written meanwhile.
  datatype Read<T> = Got(value: T, used: nat) | Fail(fault: Fault)

  datatype Exchange<T> = Exchange(read: Read<T>, written: bytes)

  datatype Request = Request(header: bytes, address: bytes, port: bytes)

  // ---- reading ----

  // _read_address_bytes
  function ReadAddress(s: bytes, atyp: byte): Read<bytes> {
    if atyp == ATYP_IPV4 then if |s| < 4 then Fail(Incomplete) else Got(s[..4], 4)
    else if atyp == ATYP_IPV6 then if |s| < 16 then Fail(Incomplete) else Got(s[..16], 16)
    else if atyp == ATYP_DOMAIN then
      if |s| < 1 || |s| < 1 + s[0] as int then Fail(Incomplete) else Got(s[..1 + s[0] as int], 1 + s[0] as nat)
    else Fail(BadAddressType)
  }

  // Address and port behind a four-byte header.
  function ReadTail(header: bytes, s: bytes): Read<Request>
    requires |header| == 4
  {
    match ReadAddress(s, header[3])
    case Fail(f) => Fail(f)
    case Got(address, n) =>
      if |s| < n + 2 then Fail(Incomplete) else Got(Request(header, address, s[n..n + 2]), 4 + n + 2)
  }

  // The request after method selection.
  function ReadRequest(s: bytes): Exchange<Request> {
    if |s| < 4 then Exchange(Fail(Incomplete), [])
    else if s[0] != VERSION then Exchange(Fail(BadVersion), [])
    else if s[1] != CONNECT then Exchange(Fail(BadCommand), FailureResponse(COMMAND_NOT_SUPPORTED))
    else Exchange(ReadTail(s[..4], s[4..]), [])
  }

  // _read_client_request: greeting, method selection, request.
  function ReadClientRequest(s: bytes): Exchange<Request> {
    if |s| < 2 then Exchange(Fail(Incomplete), [])
    else if s[0] != VERSION then Exchange(Fail(BadVersion), [])
    else
      var n := 2 + s[1] as nat;
      if |s| < n then Exchange(Fail(Incomplete), [])
      else if NO_AUTH !in s[2..n] then Exchange(Fail(NoMethod), [VERSION, NO_ACCEPTABLE])
      else
        var x := ReadRequest(s[n..]);
        Exchange(if x.read.Got? then Got(x.read.value, n + x.read.used) else x.read, [VERSION, NO_AUTH] + x.written)
  }

  // _read_socks5_response
  function ReadResponse(s: bytes): Read<bytes> {
    if |s| < 4 then Fail(Incomplete)
    else if s[0] != VERSION then Fail(BadVersion)
    else
      match ReadTail(s[..4], s[4..])
      case Fail(f) => Fail(f)
      case Got(r, n) => Got(Emit(r), n)
  }

  // ---- writing ----

  function FailureResponse(code: byte): bytes { [VERSION, code, 0, ATYP_IPV4, 0, 0, 0, 0, 0, 0] }

  const SUCCESS: bytes := [VERSION, 0, 0, ATYP_IPV4, 0, 0, 0, 0, 0, 0]

  /** The bridge's own replies, byte for byte (section 6 of RFC 1928). */
  lemma OwnReplies()
    ensures SUCCESS == [5, 0, 0, 1, 0, 0, 0, 0, 0, 0]
    ensures FailureResponse(GENERAL_FAILURE) == [5, 1, 0, 1, 0, 0, 0, 0, 0, 0]
    ensures FailureResponse(COMMAND_NOT_SUPPORTED) == [5, 7, 0, 1, 0, 0, 0, 0, 0, 0]
    ensures [VERSION, NO_AUTH] == [5, 0] && [VERSION, NO_ACCEPTABLE] == [5, 255]
  {
  }

  // to_upstream_bytes without a host.
  function Emit(r: Request): bytes { r.header + r.address + r.port }

  // How hosts are spelled: reading and writing IP addresses as text, four or sixteen packed
  // bytes, and names in their encoded form. None: the text is no address, the name is refused.
  datatype Spelling = Spelling(
    ipOf: string -> Option<bytes>,
    ipText: bytes -> string,
    idnaEncode: string -> Option<bytes>,
    idnaDecode: bytes -> Option<string>)

  predicate IsPacked(b: bytes) { |b| == 4 || |b| == 16 }

  // Addresses read back from their own text.
  ghost predicate Faithful(sp: Spelling) {
    && (forall b :: IsPacked(b) ==> sp.ipOf(sp.ipText(b)) == Some(b))
    && (forall h :: sp.ipOf(h).Some? ==> IsPacked(sp.ipOf(h).value))
  }

  function IpType(packed: bytes): byte { if |packed| == 4 then ATYP_IPV4 else ATYP_IPV6 }

  function DomainAddress(name: bytes): bytes
    requires |name| <= 255
  {
    [|name| as byte] + name
  }

  // _encode_request_host
  function EncodeHost(sp: Spelling, host: string): Result<(byte, bytes), Fault> {
    match sp.ipOf(host)
    case Some(packed) => Ok((IpType(packed), packed))
    case None =>
      match sp.idnaEncode(host)
      case None => Err(BadName)
      case Some(name) => if |name| > 255 then Err(TooLong) else Ok((ATYP_DOMAIN, DomainAddress(name)))
  }

  // _decode_request_host
  function DecodeHost(sp: Spelling, atyp: byte, address: bytes): Result<string, Fault> {
    if atyp == ATYP_IPV4 then if |address| == 4 then Ok(sp.ipText(address)) else Err(BadAddress)
    else if atyp == ATYP_IPV6 then if |address| == 16 then Ok(sp.ipText(address)) else Err(BadAddress)
    else if atyp == ATYP_DOMAIN then
      if address == [] || address[0] as int != |address| - 1 then Err(BadDomain)
      else
        match sp.idnaDecode(address[1..])
        case None => Err(BadName)
        case Some(host) => Ok(host)
    else Err(BadAddressType)
  }

  // to_upstream_bytes with a host.
  function Rewrite(sp: Spelling, r: Request, host: string): Result<bytes, Fault>
    requires |r.header| == 4
  {
    match EncodeHost(sp, host)
    case Err(f) => Err(f)
    case Ok((atyp, address)) => Ok([r.header[0], r.header[1], r.header[2], atyp] + address + r.port)
  }

  function PortNumber(r: Request): nat
    requires |r.port| == 2
  {
    r.port[0] as nat * 256 + r.port[1] as nat
  }

  /** The port's number is that of the last two bytes of what was read, in network byte order. */
  lemma PortOfRequest(s: bytes)
    requires ReadClientRequest(s).read.Got?
    ensures var g := ReadClientRequest(s).read;
      && 2 <= g.used <= |s| && |g.value.port| == 2
      && PortNumber(g.value) == 256 * s[g.used - 2] as nat + s[g.used - 1] as nat
  {
    EmitReproducesRequest(s);
    var g := ReadClientRequest(s).read;
    var n := 2 + s[1] as nat;
    TailEmits(s[n..][..4], s[n..][4..]);
    var e := Emit(g.value);
    assert e[|e| - 2..] == g.value.port && s[n..g.used][|e| - 2..] == s[g.used - 2..g.used];
  }

  function DecimalValue(s: string): nat {
    if s == "" || !('0' <= s[|s| - 1] <= '9') then 0
    else DecimalValue(s[..|s| - 1]) * 10 + (s[|s| - 1] as nat - 48)
  }

  /** A number's digits read as that number. */
  lemma {:induction false} DigitsReadBack(n: nat)
    ensures DecimalValue(Digits(n)) == n && Digits(n) != "" && (n > 0 ==> Digits(n)[0] != '0')
  {
    var s := Digits(n);
    if n < 10 {
      assert s[..0] == "";
    } else {
      DigitsReadBack(n / 10);
      assert s[..|s| - 1] == Digits(n / 10);
    }
  }

  function Digits(n: nat): string {
    if n < 10 then [(n + 48) as char] else Digits(n / 10) + [(n % 10 + 48) as char]
  }

  // validation_url
  function ValidationUrl(sp: Spelling, r: Request): Result<string, Fault>
    requires |r.header| == 4 && |r.port| == 2
  {
    match DecodeHost(sp, r.header[3], r.address)
    case Err(f) => Err(f)
    case Ok(host) =>
      var h := if ':' in host && (host == "" || host[0] != '[') then "[" + host + "]" else host;
      Ok("http://" + h + ":" + Digits(PortNumber(r)) + "/")
  }

  // ---- self-delimiting ----

  lemma AddressExtends(s: bytes, extra: bytes, atyp: byte)
    requires ReadAddress(s, atyp) != Fail(Incomplete)
    ensures ReadAddress(s + extra, atyp) == ReadAddress(s, atyp)
  {
    if atyp == ATYP_DOMAIN {
      assert (s + extra)[..1 + s[0] as int] == s[..1 + s[0] as int];
    } else if atyp == ATYP_IPV4 {
      assert (s + extra)[..4] == s[..4];
    } else if atyp == ATYP_IPV6 {
      assert (s + extra)[..16] == s[..16];
    }
  }

  lemma TailExtends(header: bytes, s: bytes, extra: bytes)
    requires |header| == 4 && ReadTail(header, s) != Fail(Incomplete)
    ensures ReadTail(header, s + extra) == ReadTail(header, s)
  {
    AddressExtends(s, extra, header[3]);
    var a := ReadAddress(s, header[3]);
    if a.Got? { assert (s + extra)[a.used..a.used + 2] == s[a.used..a.used + 2]; }
  }

  lemma RequestExtends(s: bytes, extra: bytes)
    requires ReadRequest(s).read != Fail(Incomplete)
    ensures ReadRequest(s + extra) == ReadRequest(s)
  {
    if s[0] == VERSION && s[1] == CONNECT {
      assert (s + extra)[..4] == s[..4] && (s + extra)[4..] == s[4..] + extra;
      TailExtends(s[..4], s[4..], extra);
    }
  }

  /** What a client request means is settled by its own bytes: once reading has not run out
      of input, bytes that follow change neither the outcome, nor the count of bytes used,
      nor what was answered. */
  lemma ClientRequestIsSelfDelimiting(s: bytes, extra: bytes)
    requires ReadClientRequest(s).read != Fail(Incomplete)
    ensures ReadClientRequest(s + extra) == ReadClientRequest(s)
  {
    if s[0] == VERSION {
      var n := 2 + s[1] as nat;
      assert (s + extra)[2..n] == s[2..n] && (s + extra)[n..] == s[n..] + extra;
      if NO_AUTH in s[2..n] { RequestExtends(s[n..], extra); }
    }
  }

  lemma ResponseIsSelfDelimiting(s: bytes, extra: bytes)
    requires ReadResponse(s) != Fail(Incomplete)
    ensures ReadResponse(s + extra) == ReadResponse(s)
  {
    if s[0] == VERSION {
      assert (s + extra)[..4] == s[..4] && (s + extra)[4..] == s[4..] + extra;
      TailExtends(s[..4], s[4..], extra);
    }
  }

  // ---- round trips ----

  lemma TailEmits(header: bytes, s: bytes)
    requires |header| == 4 && ReadTail(header, s).Got?
    ensures var g := ReadTail(header, s);
      4 <= g.used <= 4 + |s| && Emit(g.value) == header + s[..g.used - 4] && |g.value.port| == 2 &&
        g.value.header == header
  {
  }

  predicate IsAddress(atyp: byte, a: bytes) {
    || (atyp == 1 && |a| == 4)
    || (atyp == 4 && |a| == 16)
    || (atyp == 3 && a != [] && |a| == 1 + a[0] as int)
  }

  // A client's greeting and connect request, field by field (sections 3 and 4 of RFC 1928).
  function GreetingOf(methods: bytes): bytes
    requires |methods| <= 255
  {
    [5, |methods| as byte] + methods
  }

  function ConnectOf(reserved: byte, atyp: byte, address: bytes, port: bytes): bytes {
    [5, 1, reserved, atyp] + address + port
  }

  // The text is a greeting that offers no authentication, a connect request, and more bytes.
  predicate IsClientRequest(s: bytes, methods: bytes, r: Request, rest: bytes) {
    && |methods| <= 255 && 0 in methods && |r.header| == 4 && |r.port| == 2
    && r.header == [5, 1, r.header[2], r.header[3]] && IsAddress(r.header[3], r.address)
    && s == GreetingOf(methods) + (ConnectOf(r.header[2], r.header[3], r.address, r.port) + rest)
  }

  /** Every such text is read, as exactly these fields, up to where they end. */
  lemma FormatIsRead(s: bytes, methods: bytes, r: Request, rest: bytes)
    requires IsClientRequest(s, methods, r, rest)
    ensures ReadClientRequest(s) == Exchange(Got(r, |s| - |rest|), [VERSION, NO_AUTH])
  {
    var g, q := GreetingOf(methods), ConnectOf(r.header[2], r.header[3], r.address, r.port);
    var n := 2 + |methods|;
    assert s[..n] == g && s[2..n] == g[2..] == methods && s[n..] == q + rest;
    AddressIsRead(r.header[3], r.address, r.port);
    RewrittenReads(r, r.header[3], r.address, rest);
    assert [r.header[0], r.header[1], r.header[2], r.header[3]] == r.header;
    assert ReadRequest(q + rest).read == Got(r, |q|);
  }

  lemma AddressIsRead(atyp: byte, address: bytes, rest: bytes)
    requires IsAddress(atyp, address)
    ensures ReadAddress(address + rest, atyp) == Got(address, |address|)
  {
    assert (address + rest)[..|address|] == address;
  }

  /** And only such texts are read. */
  lemma ReadIsFormat(s: bytes) returns (methods: bytes, rest: bytes)
    requires ReadClientRequest(s).read.Got?
    ensures IsClientRequest(s, methods, ReadClientRequest(s).read.value, rest)
    ensures |rest| == |s| - ReadClientRequest(s).read.used
  {
    var g := ReadClientRequest(s).read;
    var n := 2 + s[1] as nat;
    EmitReproducesRequest(s);
    TailEmits(s[n..][..4], s[n..][4..]);
    methods, rest := s[2..n], s[g.used..];
    ReadTailIsAddress(s[n..][..4], s[n..][4..]);
    assert GreetingOf(methods) == s[..n];
    assert ConnectOf(g.value.header[2], g.value.header[3], g.value.address, g.value.port) == Emit(g.value);
    assert s[n..] == s[n..g.used] + rest && s == s[..n] + s[n..];
  }

  lemma ReadTailIsAddress(header: bytes, s: bytes)
    requires |header| == 4 && ReadTail(header, s).Got?
    ensures IsAddress(header[3], ReadTail(header, s).value.address)
  {
  }

  /** Writing a request again without a host reproduces the bytes it was read from: all that
      was used after the greeting. */
  lemma EmitReproducesRequest(s: bytes)
    requires ReadClientRequest(s).read.Got?
    ensures var g := ReadClientRequest(s).read; var n := 2 + s[1] as nat;
      n < g.used <= |s| && Emit(g.value) == s[n..g.used]
  {
    var n := 2 + s[1] as nat;
    var t := s[n..];
    TailEmits(t[..4], t[4..]);
    var g := ReadRequest(t).read;
    assert t[..4] + t[4..][..g.used - 4] == t[..g.used] == s[n..n + g.used];
  }

  /** An upstream reply is passed on exactly as it was read. */
  lemma ResponseIsVerbatim(s: bytes)
    requires ReadResponse(s).Got?
    ensures ReadResponse(s).used <= |s| && ReadResponse(s).value == s[..ReadResponse(s).used]
  {
    TailEmits(s[..4], s[4..]);
    var n := ReadResponse(s).used;
    assert s[..4] + s[4..][..n - 4] == s[..n];
  }

  /** An address goes through text unchanged: both address types round-trip. */
  lemma AddressRoundTrip(sp: Spelling, packed: bytes)
    requires Faithful(sp) && IsPacked(packed)
    ensures DecodeHost(sp, IpType(packed), packed) == Ok(sp.ipText(packed))
    ensures EncodeHost(sp, sp.ipText(packed)) == Ok((IpType(packed), packed))
  {
  }

  // A name decodes if its bytes do; the text encodes back to the same address if it is no IP
  // literal and the name encodes to the same bytes; and an IP literal becomes that address.
  ghost predicate NameDecodes(sp: Spelling, name: bytes, address: bytes) {
    var text, h := sp.idnaDecode(name), DecodeHost(sp, ATYP_DOMAIN, address);
    && (h.Ok? <==> text.Some?)
    && (h.Ok? ==>
          && h.value == text.value
          && (EncodeHost(sp, h.value) == Ok((ATYP_DOMAIN, address))
              <==> sp.ipOf(text.value).None? && sp.idnaEncode(text.value) == Some(name))
          && (sp.ipOf(text.value).Some? ==>
                EncodeHost(sp, h.value) == Ok((IpType(sp.ipOf(text.value).value), sp.ipOf(text.value).value))))
  }

  lemma NameDecodesIff(sp: Spelling, name: bytes, address: bytes)
    requires |name| <= 255 && address == DomainAddress(name)
    ensures NameDecodes(sp, name, address)
  {
    assert address[1..] == name;
    if sp.idnaDecode(name).Some? { NameEncodes(sp, sp.idnaDecode(name).value, name, address); }
  }

  lemma NameEncodes(sp: Spelling, host: string, name: bytes, address: bytes)
    requires |name| <= 255 && address == DomainAddress(name)
    ensures EncodeHost(sp, host) == Ok((ATYP_DOMAIN, address))
      <==> sp.ipOf(host).None? && sp.idnaEncode(host) == Some(name)
  {
    match sp.ipOf(host)
    case Some(packed) => assert IpType(packed) != ATYP_DOMAIN;
    case None =>
      var encoded := sp.idnaEncode(host);
      if encoded.Some? && |encoded.value| <= 255 { DomainAddressInjective(name, encoded.value); }
  }

  /** What becomes of an address that was read. Types 1 and 4 always decode and encode back to
      themselves. Type 3 decodes if and only if its name does; it then encodes back to itself if
      and only if the decoded text is no IP literal and the name encodes to the same bytes. */
  lemma ReadAddressDecodesIff(sp: Spelling, s: bytes, atyp: byte)
    requires Faithful(sp) && ReadAddress(s, atyp).Got?
    ensures var address := ReadAddress(s, atyp).value;
      if atyp == ATYP_DOMAIN then address != [] && NameDecodes(sp, address[1..], address)
      else DecodeHost(sp, atyp, address) == Ok(sp.ipText(address))
           && EncodeHost(sp, sp.ipText(address)) == Ok((atyp, address))
  {
    var address := ReadAddress(s, atyp).value;
    if atyp == ATYP_DOMAIN {
      assert address == DomainAddress(address[1..]);
      NameDecodesIff(sp, address[1..], address);
    } else {
      AddressRoundTrip(sp, address);
    }
  }

  lemma DomainAddressInjective(name: bytes, other: bytes)
    requires |name| <= 255 && |other| <= 255
    ensures DomainAddress(other) == DomainAddress(name) <==> other == name
  {
    assert DomainAddress(other)[1..] == other && DomainAddress(name)[1..] == name;
  }

  /** A domain address that spells an IPv4 address is encoded as that address. */
  lemma DomainThatIsAnAddress(sp: Spelling, name: bytes)
    requires |name| == 9 && sp.idnaDecode(name) == Some("127.0.0.1")
    requires sp.ipOf("127.0.0.1") == Some([127, 0, 0, 1])
    ensures var address := DomainAddress(name);
      && ReadAddress(address, ATYP_DOMAIN) == Got(address, 10)
      && DecodeHost(sp, ATYP_DOMAIN, address) == Ok("127.0.0.1")
      && EncodeHost(sp, "127.0.0.1") == Ok((ATYP_IPV4, [127, 0, 0, 1]))
  {
    var address := DomainAddress(name);
    assert address[1..] == name && address[..10] == address;
  }

  /** A one-byte name that is not ASCII is read and does not decode. */
  lemma NameThatDoesNotDecode(sp: Spelling)
    requires sp.idnaDecode([255]) == None
    ensures ReadAddress([1, 255], ATYP_DOMAIN) == Got([1, 255], 2)
    ensures DecodeHost(sp, ATYP_DOMAIN, [1, 255]) == Err(BadName)
  {
    var address: bytes := [1, 255];
    assert address[1..] == [255] && address[..2] == address;
  }

  // A host in the spelling that decoding gives it.
  predicate Canonical(sp: Spelling, host: string) {
    match sp.ipOf(host)
    case Some(packed) => sp.ipText(packed) == host
    case None => sp.idnaEncode(host).Some? && sp.idnaDecode(sp.idnaEncode(host).value) == Some(host)
  }

  /** A host that encodes decodes back to itself exactly when it is spelled canonically; and the
      address of an IP literal is kept, however it was spelled. */
  lemma HostRoundTripIff(sp: Spelling, host: string)
    requires Faithful(sp) && EncodeHost(sp, host).Ok?
    ensures var (atyp, address) := EncodeHost(sp, host).value; var back := DecodeHost(sp, atyp, address);
      && (back == Ok(host) <==> Canonical(sp, host))
      && (sp.ipOf(host).Some? ==> back.Ok? && sp.ipOf(back.value) == sp.ipOf(host))
  {
    if sp.ipOf(host).Some? {
      AddressRoundTrip(sp, sp.ipOf(host).value);
    } else {
      var name := sp.idnaEncode(host).value;
      assert DomainAddress(name)[1..] == name;
    }
  }

  /** A request rewritten to a host that encodes reads back in full, whatever follows it: same
      version, command, reserved byte and port, and the address is that host's; a host given as an
      IP literal decodes to the same IP address. */
  lemma RewriteReadsBack(sp: Spelling, s: bytes, host: string, extra: bytes)
    requires Faithful(sp) && ReadClientRequest(s).read.Got? && EncodeHost(sp, host).Ok?
    ensures var r := ReadClientRequest(s).read.value; var out := Rewrite(sp, r, host);
      && out.Ok?
      && var back := ReadRequest(out.value + extra).read;
      && back.Got? && back.used == |out.value| && Emit(back.value) == out.value
      && back.value.header[..3] == r.header[..3] && back.value.port == r.port
      && (back.value.header[3], back.value.address) == EncodeHost(sp, host).value
      && (sp.ipOf(host).Some? ==>
            DecodeHost(sp, back.value.header[3], back.value.address) == Ok(sp.ipText(sp.ipOf(host).value)))
  {
    var n := 2 + s[1] as nat;
    TailEmits(s[n..][..4], s[n..][4..]);
    var (atyp, address) := EncodeHost(sp, host).value;
    EncodedReads(sp, host, ReadClientRequest(s).read.value.port);
    RewrittenReads(ReadClientRequest(s).read.value, atyp, address, extra);
    if sp.ipOf(host).Some? { AddressRoundTrip(sp, sp.ipOf(host).value); }
  }

  // An encoded address is read as long as it is, whatever follows.
  lemma EncodedReads(sp: Spelling, host: string, rest: bytes)
    requires Faithful(sp) && EncodeHost(sp, host).Ok?
    ensures var (atyp, address) := EncodeHost(sp, host).value;
      ReadAddress(address + rest, atyp) == Got(address, |address|)
  {
    var (atyp, address) := EncodeHost(sp, host).value;
    assert (address + rest)[..|address|] == address;
  }

  lemma RewrittenReads(r: Request, atyp: byte, address: bytes, extra: bytes)
    requires |r.header| == 4 && |r.port| == 2 && r.header[0] == VERSION && r.header[1] == CONNECT
    requires ReadAddress(address + r.port, atyp) == Got(address, |address|)
    ensures var header := [r.header[0], r.header[1], r.header[2], atyp]; var out := header + address + r.port;
      ReadRequest(out + extra).read == Got(Request(header, address, r.port), |out|)
  {
    var header, rest := [r.header[0], r.header[1], r.header[2], atyp], address + r.port;
    var out := header + address + r.port;
    assert out == header + rest && out[..4] == header && out[4..] == rest;
    assert rest[|address|..|address| + 2] == r.port;
    assert ReadRequest(out).read == Got(Request(header, address, r.port), |out|);
    RequestExtends(out, extra);
  }
}
