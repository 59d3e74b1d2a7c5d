/**
 The bridge that serves one browser client: stream readers, upstream authentication
 (section 2 of RFC 1929), and the order of steps up to the relay.
 */
module Socks5Bridge {
  import opened Wrappers
  import opened Socks5

  // ---- step-by-step readers ----

  // The bytes a peer sends before it ends the stream or a timeout ends the wait.
  class StreamReader {
    const data: bytes
    var pos: nat

    ghost predicate Valid()
      reads this
    {
      pos <= |data|
    }

    function Rest(): bytes
      requires Valid()
      reads this
    {
      data[pos..]
    }

    constructor (data: bytes)
      ensures Valid() && this.data == data && Rest() == data
    {
      this.data, pos := data, 0;
    }

    method ReadExactly(n: nat) returns (r: Option<bytes>)
      requires Valid()
      modifies this
      ensures Valid()
      ensures r.Some? <==> n <= |old(Rest())|
      ensures r.Some? ==> r.value == old(Rest())[..n] && Rest() == old(Rest())[n..]
    {
      if n > |data| - pos {
        pos := |data|;
        return None;
      }
      r := Some(data[pos..pos + n]);
      pos := pos + n;
    }
  }

  method ReadAddressBytes(reader: StreamReader, atyp: byte) returns (r: Read<bytes>)
    requires reader.Valid()
    modifies reader
    ensures reader.Valid() && r == ReadAddress(old(reader.Rest()), atyp)
    ensures r.Got? ==> r.used <= |old(reader.Rest())| && reader.Rest() == old(reader.Rest())[r.used..]
  {
    if atyp == ATYP_IPV4 || atyp == ATYP_IPV6 {
      var n := if atyp == ATYP_IPV4 then 4 else 16;
      var a := reader.ReadExactly(n);
      return if a.Some? then Got(a.value, n) else Fail(Incomplete);
    }
    if atyp != ATYP_DOMAIN { return Fail(BadAddressType); }
    ghost var s := reader.Rest();
    var length := reader.ReadExactly(1);
    if length.None? { return Fail(Incomplete); }
    var n := length.value[0] as nat;
    var name := reader.ReadExactly(n);
    if name.None? { return Fail(Incomplete); }
    assert s[..1 + n] == length.value + name.value && s[1..][n..] == s[1 + n..];
    return Got(length.value + name.value, 1 + n);
  }

  // Address and port behind the header just read.
  method ReadTailBytes(reader: StreamReader, header: bytes) returns (r: Read<Request>)
    requires reader.Valid() && |header| == 4
    modifies reader
    ensures reader.Valid() && r == ReadTail(header, old(reader.Rest()))
    ensures r.Got? ==> 4 <= r.used <= 4 + |old(reader.Rest())| && reader.Rest() == old(reader.Rest())[r.used - 4..]
  {
    ghost var s := reader.Rest();
    var address := ReadAddressBytes(reader, header[3]);
    if address.Fail? { return Fail(address.fault); }
    var port := reader.ReadExactly(2);
    if port.None? { return Fail(Incomplete); }
    var n := address.used;
    assert s[n..][..2] == s[n..n + 2] && s[n..][2..] == s[n + 2..];
    return Got(Request(header, address.value, port.value), 4 + n + 2);
  }

  method ReadSocks5Response(reader: StreamReader) returns (r: Read<bytes>)
    requires reader.Valid()
    modifies reader
    ensures r == ReadResponse(old(reader.Rest())) && (r.Got? ==> |r.value| >= 4)
  {
    ghost var s := reader.Rest();
    var header := reader.ReadExactly(4);
    if header.None? { return Fail(Incomplete); }
    if header.value[0] != VERSION { return Fail(BadVersion); }
    var tail := ReadTailBytes(reader, header.value);
    if tail.Fail? { return Fail(tail.fault); }
    ResponseShape(s);
    return Got(Emit(tail.value), tail.used);
  }

  method ReadRequestBytes(reader: StreamReader) returns (r: Read<Request>, written: bytes)
    requires reader.Valid()
    modifies reader
    ensures Exchange(r, written) == ReadRequest(old(reader.Rest()))
  {
    var header := reader.ReadExactly(4);
    if header.None? { return Fail(Incomplete), []; }
    if header.value[0] != VERSION { return Fail(BadVersion), []; }
    if header.value[1] != CONNECT { return Fail(BadCommand), FailureResponse(COMMAND_NOT_SUPPORTED); }
    r := ReadTailBytes(reader, header.value);
    written := [];
  }

  // The greeting: how many bytes it takes, or how reading ends there.
  function Greeting(s: bytes): Result<nat, Exchange<Request>> {
    if |s| < 2 then Err(Exchange(Fail(Incomplete), []))
    else if s[0] != VERSION then Err(Exchange(Fail(BadVersion), []))
    else
      var n := 2 + s[1] as nat;
      if |s| < n then Err(Exchange(Fail(Incomplete), []))
      else if NO_AUTH !in s[2..n] then Err(Exchange(Fail(NoMethod), [VERSION, NO_ACCEPTABLE]))
      else Ok(n)
  }

  method ReadGreeting(reader: StreamReader) returns (r: Result<nat, Exchange<Request>>)
    requires reader.Valid()
    modifies reader
    ensures reader.Valid() && r == Greeting(old(reader.Rest()))
    ensures r.Ok? ==> r.value <= |old(reader.Rest())| && reader.Rest() == old(reader.Rest())[r.value..]
  {
    ghost var s := reader.Rest();
    var greeting := reader.ReadExactly(2);
    if greeting.None? { return Err(Exchange(Fail(Incomplete), [])); }
    if greeting.value[0] != VERSION { return Err(Exchange(Fail(BadVersion), [])); }
    var count := greeting.value[1] as nat;
    var methods := reader.ReadExactly(count);
    if methods.None? { return Err(Exchange(Fail(Incomplete), [])); }
    assert methods.value == s[2..2 + count] && reader.Rest() == s[2 + count..];
    if NO_AUTH !in methods.value { return Err(Exchange(Fail(NoMethod), [VERSION, NO_ACCEPTABLE])); }
    return Ok(2 + count);
  }

  // _read_client_request
  method ReadRequestFromClient(reader: StreamReader) returns (r: Read<Request>, written: bytes)
    requires reader.Valid()
    modifies reader
    ensures Exchange(r, written) == ReadClientRequest(old(reader.Rest()))
  {
    var greeting := ReadGreeting(reader);
    if greeting.Err? { return greeting.error.read, greeting.error.written; }
    r, written := ReadRequestBytes(reader);
    written := [VERSION, NO_AUTH] + written;
    if r.Got? { r := Got(r.value, greeting.value + r.used); }
  }

  // ---- upstream authentication ----

  datatype Upstream = Upstream(username: bytes, password: bytes, port: nat)

  function Credentials(up: Upstream): bytes
    requires |up.username| <= 255 && |up.password| <= 255
  {
    [1, |up.username| as byte] + up.username + [|up.password| as byte] + up.password
  }

  predicate Authenticates(up: Upstream, s: bytes) {
    && |s| >= 2 && s[0] == VERSION
    && (s[1] == NO_AUTH
        || (s[1] == USER_PASS && |up.username| <= 255 && |up.password| <= 255 && |s| >= 4 && s[3] == 0))
  }

  /** When the upstream accepts the bridge: it chooses no authentication; or user name and password,
      both fit one length byte, and it answers them with status zero. Nothing else is accepted. */
  lemma AuthenticationCases(up: Upstream, chosen: byte, version: byte, status: byte, rest: bytes)
    ensures Authenticates(up, [5, 0] + rest)
    ensures Authenticates(up, [5, 2, version, status] + rest) <==>
      |up.username| <= 255 && |up.password| <= 255 && status == 0
    ensures chosen != 0 && chosen != 2 ==> !Authenticates(up, [5, chosen] + rest)
    ensures version != 5 ==> !Authenticates(up, [version, chosen] + rest)
    ensures |rest| < 2 ==> !Authenticates(up, [5, 2] + rest)
  {
  }

  // What is written to the upstream while it authenticates the bridge.
  function AuthWrites(up: Upstream, s: bytes): bytes
    requires Authenticates(up, s)
  {
    var offer := if up.username != [] || up.password != [] then USER_PASS else NO_AUTH;
    [VERSION, 1, offer] + if s[1] == NO_AUTH then [] else Credentials(up)
  }

  method AuthenticateUpstream(reader: StreamReader, up: Upstream) returns (ok: bool, written: bytes)
    requires reader.Valid()
    modifies reader
    ensures reader.Valid() && ok == Authenticates(up, old(reader.Rest()))
    ensures ok ==> written == AuthWrites(up, old(reader.Rest()))
    ensures ok ==> reader.Rest() == old(reader.Rest())[if old(reader.Rest())[1] == NO_AUTH then 2 else 4..]
  {
    ghost var s := reader.Rest();
    written := [VERSION, 1, if up.username != [] || up.password != [] then USER_PASS else NO_AUTH];
    var response := reader.ReadExactly(2);
    if response.None? || response.value[0] != VERSION { return false, written; }
    var chosen := response.value[1];
    if chosen == NO_AUTH { return true, written + []; }
    if chosen != USER_PASS { return false, written; }
    if |up.username| > 255 || |up.password| > 255 { return false, written; }
    written := written + Credentials(up);
    var answer := reader.ReadExactly(2);
    if answer.None? { return false, written; }
    assert s[2..][..2][1] == s[3] && s[2..][2..] == s[4..];
    return answer.value[1] == 0, written;
  }

  // Reading a username and password message back.
  function ReadCredentials(m: bytes): Option<(bytes, bytes)> {
    if |m| < 2 || m[0] != 1 || |m| < 3 + m[1] as int then None
    else
      var n := 2 + m[1] as nat;
      if |m| != n + 1 + m[n] as int then None else Some((m[2..n], m[n + 1..]))
  }

  /** The credentials message reads back to the user name and the password. */
  lemma CredentialsReadBack(up: Upstream)
    requires |up.username| <= 255 && |up.password| <= 255
    ensures ReadCredentials(Credentials(up)) == Some((up.username, up.password))
  {
    var m, n := Credentials(up), 2 + |up.username|;
    assert m[2..n] == up.username && m[n + 1..] == up.password;
  }

  // ---- serving one client ----

  datatype Action =
    | ToClient(data: bytes)
    | Validated(request: Request)
    | Connect(ip: string, port: nat)
    | ToUpstream(data: bytes)

  // What the world answers: the addresses of a target URL, if it passes validation; those of the
  // upstream proxy; whether connecting works; and what the upstream sends.
  datatype Env = Env(
    spelling: Spelling,
    validate: string -> Option<seq<string>>,
    proxyIps: Option<seq<string>>,
    connects: bool,
    upstreamSends: bytes)

  // The actions of one run, and whether it goes on to relay.
  datatype Served = Served(trace: seq<Action>, relays: bool)

  const REFUSAL := [ToClient(FailureResponse(GENERAL_FAILURE))]

  function Resolved(ips: Option<seq<string>>): Option<string> {
    if ips.Some? && ips.value != [] then Some(ips.value[0]) else None
  }

  // The first address of the validated target, if its host decodes and it passes.
  function TargetIp(env: Env, r: Request): Option<string> {
    if |r.header| != 4 || |r.port| != 2 then None
    else
      match ValidationUrl(env.spelling, r)
      case Err(_) => None
      case Ok(url) => Resolved(env.validate(url))
  }

  // The same for what a client sends.
  function TargetOf(env: Env, client: bytes): Option<string> {
    match ReadClientRequest(client).read
    case Fail(_) => None
    case Got(r, _) => TargetIp(env, r)
  }

  // The upstream's messages after authentication.
  function ReplyPart(s: bytes): bytes
    requires Authenticated(s)
  {
    s[if s[1] == NO_AUTH then 2 else 4..]
  }

  /** What has been done when a run relays. On the direct path: method selected, target
      validated, its first address connected, success told to the client. */
  function DirectRun(r: Request, ip: string): seq<Action>
    requires |r.port| == 2
  {
    [ToClient([VERSION, NO_AUTH]), Validated(r), Connect(ip, PortNumber(r)), ToClient(SUCCESS)]
  }

  function UpstreamSent(proxyIp: string, up: Upstream, auth: bytes, rewritten: bytes): seq<Action> {
    [Connect(proxyIp, up.port), ToUpstream(auth), ToUpstream(rewritten)]
  }

  /** On the upstream path: the proxy's first address connected, the bridge authenticated,
      the request sent on with the target's first address, and the reply told to the client. */
  function UpstreamRun(r: Request, proxyIp: string, up: Upstream, auth: bytes, rewritten: bytes,
      response: bytes): seq<Action> {
    [ToClient([VERSION, NO_AUTH]), Validated(r)] + UpstreamSent(proxyIp, up, auth, rewritten) + [ToClient(response)]
  }

  // Everything up to a complete reply of the upstream went well.
  ghost predicate UpstreamReplies(r: Request, ip: string, up: Upstream, env: Env) {
    && |r.header| == 4 && Resolved(env.proxyIps).Some? && env.connects
    && Authenticates(up, env.upstreamSends) && Rewrite(env.spelling, r, ip).Ok?
    && ReadResponse(ReplyPart(env.upstreamSends)).Got?
  }

  // What must have happened before the upstream path relays.
  ghost predicate UpstreamAgrees(r: Request, ip: string, up: Upstream, env: Env) {
    && UpstreamReplies(r, ip, up, env)
    && var reply := ReadResponse(ReplyPart(env.upstreamSends)).value;
    && |reply| >= 2 && reply[1] == 0
  }

  ghost predicate UpstreamEarned(r: Request, ip: string, up: Upstream, env: Env, trace: seq<Action>) {
    && UpstreamAgrees(r, ip, up, env)
    && trace == UpstreamRun(r, Resolved(env.proxyIps).value, up, AuthWrites(up, env.upstreamSends),
                            Rewrite(env.spelling, r, ip).value,
                            ReadResponse(ReplyPart(env.upstreamSends)).value)
  }

  ghost predicate RelayAllowed(r: Request, upstream: Option<Upstream>, env: Env) {
    && TargetIp(env, r).Some?
    && match upstream
       case None => env.connects
       case Some(up) => UpstreamAgrees(r, TargetIp(env, r).value, up, env)
  }

  ghost predicate RelayEarned(r: Request, upstream: Option<Upstream>, env: Env, trace: seq<Action>) {
    && TargetIp(env, r).Some?
    && var ip := TargetIp(env, r).value;
    && match upstream
       case None => |r.port| == 2 && env.connects && trace == DirectRun(r, ip)
       case Some(up) => UpstreamEarned(r, ip, up, env, trace)
  }

  // Only the first address of the validated target, or of the upstream proxy, is connected.
  ghost predicate Pinned(target: Option<string>, upstream: Option<Upstream>, env: Env, a: Action) {
    a.Connect? ==> target.Some? && Some(a.ip) == if upstream.None? then target else Resolved(env.proxyIps)
  }

  // The reply told to the client is the upstream's, byte for byte.
  ghost predicate Verbatim(env: Env, trace: seq<Action>) {
    && Authenticated(env.upstreamSends) && trace != [] && trace[|trace| - 1].ToClient?
    && trace[|trace| - 1].data <= ReplyPart(env.upstreamSends)
  }

  // The client is told success: the reply's code is zero.
  predicate EndsServed(trace: seq<Action>) {
    && trace != [] && trace[|trace| - 1].ToClient?
    && var m := trace[|trace| - 1].data; |m| >= 4 && m[0] == 5 && m[1] == 0
  }

  // The direct path connects to the port that the request's last two bytes give.
  ghost predicate ConnectsToPort(client: bytes, trace: seq<Action>) {
    && ReadClientRequest(client).read.Got? && 2 <= ReadClientRequest(client).read.used <= |client|
    && |trace| > 2 && trace[2].Connect?
    && var n := ReadClientRequest(client).read.used;
    trace[2].port == 256 * client[n - 2] as nat + client[n - 1] as nat
  }

  predicate Authenticated(s: bytes) { |s| >= 2 && (s[1] != NO_AUTH ==> |s| >= 4) }

  // The client has been told that it is not served: no method, no such command, a general
  // failure, or the upstream's own reply with a code other than success.
  predicate EndsRefused(trace: seq<Action>) {
    && trace != [] && trace[|trace| - 1].ToClient?
    && var m := trace[|trace| - 1].data;
    && |m| >= 2 && (m[1] != 0 || (|m| >= 4 && m[..2] == [VERSION, NO_AUTH] && m[3] != 0))
  }

  // _handle_client. It relays exactly when every step before the relay succeeded.
  method HandleClient(client: bytes, upstream: Option<Upstream>, env: Env) returns (r: Served)
    ensures var x := ReadClientRequest(client).read;
      r.relays <==> x.Got? && RelayAllowed(x.value, upstream, env)
    ensures r.relays ==> RelayEarned(ReadClientRequest(client).read.value, upstream, env, r.trace)
    ensures !r.relays ==> EndsRefused(r.trace)
    ensures r.relays ==> EndsServed(r.trace)
    ensures r.relays && upstream.Some? ==> Verbatim(env, r.trace)
    ensures r.relays && upstream.None? ==> ConnectsToPort(client, r.trace)
    ensures forall a :: a in r.trace ==> Pinned(TargetOf(env, client), upstream, env, a)
  {
    var reader := new StreamReader(client);
    var request, greeting := ReadRequestFromClient(reader);
    ClientRequestShape(client);
    if request.Fail? {
      r := Refuse(request.fault, greeting);
    } else {
      r := ServeRequest(request.value, upstream, env);
      if r.relays && upstream.None? { DirectPort(client, env, r.trace); }
    }
  }

  lemma DirectPort(client: bytes, env: Env, trace: seq<Action>)
    requires ReadClientRequest(client).read.Got? && RelayEarned(ReadClientRequest(client).read.value, None, env, trace)
    ensures ConnectsToPort(client, trace)
  {
    PortOfRequest(client);
  }

  // Any exception other than a refusal already sent ends in a failure reply.
  method Refuse(fault: Fault, greeting: bytes) returns (r: Served)
    requires fault == NoMethod || fault == BadCommand ==> EndsRefused([ToClient(greeting)])
    ensures !r.relays && EndsRefused(r.trace) && forall a :: a in r.trace ==> !a.Connect?
  {
    var told := fault == NoMethod || fault == BadCommand;
    return Served([ToClient(greeting)] + if told then [] else REFUSAL, false);
  }

  // Everything after the request has been read.
  method ServeRequest(request: Request, upstream: Option<Upstream>, env: Env) returns (r: Served)
    requires |request.header| == 4 && |request.port| == 2
    ensures r.relays <==> RelayAllowed(request, upstream, env)
    ensures r.relays ==> RelayEarned(request, upstream, env, r.trace)
    ensures !r.relays ==> EndsRefused(r.trace)
    ensures r.relays ==> EndsServed(r.trace)
    ensures r.relays && upstream.Some? ==> Verbatim(env, r.trace)
    ensures forall a :: a in r.trace ==> Pinned(TargetIp(env, request), upstream, env, a)
  {
    var target := ValidationUrl(env.spelling, request);
    var pinned := if target.Ok? then Resolved(env.validate(target.value)) else None;
    if pinned.None? { return Served([ToClient([VERSION, NO_AUTH])] + REFUSAL, false); }
    var ip := pinned.value;
    match upstream
    case None => r := ServeDirect(request, ip, env.connects);
    case Some(up) => r := ServeThroughUpstream(request, ip, up, env);
  }

  method ServeDirect(request: Request, ip: string, connects: bool) returns (r: Served)
    requires |request.port| == 2
    ensures r.relays == connects && (r.relays ==> EndsServed(r.trace))
    ensures if r.relays then r.trace == DirectRun(request, ip) else EndsRefused(r.trace)
    ensures forall a :: a in r.trace && a.Connect? ==> a.ip == ip
  {
    var before := [ToClient([VERSION, NO_AUTH]), Validated(request)];
    if !connects { return Served(before + REFUSAL, false); }
    return Served(before + [Connect(ip, PortNumber(request)), ToClient(SUCCESS)], true);
  }

  method ServeThroughUpstream(request: Request, ip: string, up: Upstream, env: Env) returns (r: Served)
    requires |request.header| == 4
    ensures r.relays <==> UpstreamAgrees(request, ip, up, env)
    ensures if r.relays then UpstreamEarned(request, ip, up, env, r.trace) else EndsRefused(r.trace)
    ensures r.relays ==> Verbatim(env, r.trace) && EndsServed(r.trace)
    ensures forall a :: a in r.trace && a.Connect? ==> Some(a.ip) == Resolved(env.proxyIps)
  {
    var sent, reply := AskUpstream(request, ip, up, env);
    var trace := [ToClient([VERSION, NO_AUTH]), Validated(request)] + sent;
    if reply.None? { return Served(trace + REFUSAL, false); }
    ResponseIsVerbatim(ReplyPart(env.upstreamSends));
    assert reply.value[0] == VERSION;
    return Served(trace + [ToClient(reply.value)], reply.value[1] == 0);
  }

  // Connects to the upstream and asks it; the reply, if every step went well.
  method AskUpstream(request: Request, ip: string, up: Upstream, env: Env)
    returns (sent: seq<Action>, reply: Option<bytes>)
    requires |request.header| == 4
    ensures reply.Some? <==> UpstreamReplies(request, ip, up, env)
    ensures reply.Some? ==> |reply.value| >= 4 && reply.value == ReadResponse(ReplyPart(env.upstreamSends)).value
    ensures reply.Some? ==>
      sent == UpstreamSent(Resolved(env.proxyIps).value, up, AuthWrites(up, env.upstreamSends),
        Rewrite(env.spelling, request, ip).value)
    ensures forall a :: a in sent ==> (a.Connect? && Some(a.ip) == Resolved(env.proxyIps)) || a.ToUpstream?
  {
    if Resolved(env.proxyIps).None? || !env.connects { return [], None; }
    var reader := new StreamReader(env.upstreamSends);
    var ok, auth := AuthenticateUpstream(reader, up);
    sent := [Connect(Resolved(env.proxyIps).value, up.port), ToUpstream(auth)];
    if !ok { return sent, None; }
    var rest;
    rest, reply := Forward(reader, env.spelling, request, ip);
    sent := sent + rest;
  }

  // The request sent on with the given host, and the upstream's reply.
  method Forward(reader: StreamReader, sp: Spelling, request: Request, ip: string)
    returns (sent: seq<Action>, reply: Option<bytes>)
    requires reader.Valid() && |request.header| == 4
    modifies reader
    ensures reply.Some? <==> Rewrite(sp, request, ip).Ok? && ReadResponse(old(reader.Rest())).Got?
    ensures sent == if Rewrite(sp, request, ip).Ok? then [ToUpstream(Rewrite(sp, request, ip).value)] else []
    ensures reply.Some? ==> |reply.value| >= 4 && reply.value == ReadResponse(old(reader.Rest())).value
  {
    var rewritten := Rewrite(sp, request, ip);
    if rewritten.Err? { return [], None; }
    var response := ReadSocks5Response(reader);
    return [ToUpstream(rewritten.value)], if response.Got? then Some(response.value) else None;
  }

  lemma ClientRequestShape(s: bytes)
    ensures var x := ReadClientRequest(s);
      && (x.read.Got? ==> x.written == [VERSION, NO_AUTH] && |x.read.value.header| == 4 && |x.read.value.port| == 2)
      && (x.read == Fail(NoMethod) || x.read == Fail(BadCommand) ==> EndsRefused([ToClient(x.written)]))
  {
    if |s| >= 2 && |s| >= 2 + s[1] as int { RequestShape(s[2 + s[1] as int..]); }
  }

  lemma RequestShape(s: bytes)
    ensures var x := ReadRequest(s);
      && (x.read.Got? ==> x.written == [] && |x.read.value.header| == 4 && |x.read.value.port| == 2)
      && x.read != Fail(NoMethod)
      && (x.read == Fail(BadCommand) ==> x.written == FailureResponse(COMMAND_NOT_SUPPORTED))
  {
    if |s| >= 4 { TailShape(s[..4], s[4..]); }
  }

  lemma TailShape(header: bytes, s: bytes)
    requires |header| == 4
    ensures var g := ReadTail(header, s);
      && (g.Got? ==> |g.value.header| == 4 && |g.value.port| == 2)
      && g != Fail(NoMethod) && g != Fail(BadCommand)
  {
  }

  lemma ResponseShape(s: bytes)
    ensures ReadResponse(s).Got? ==> |ReadResponse(s).value| >= 4
  {
    if ReadResponse(s).Got? { TailEmits(s[..4], s[4..]); }
  }
}
