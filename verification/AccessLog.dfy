/**
  The access-log templates of pingap-logger/src/access.rs: what each placeholder compiles to, how a
  request is rendered through the compiled tags, and how that compares with reading the template
  itself.

  Templates are ASCII here, where the byte offsets of the scanner and the character offsets of the
  slicing agree.
 */
module AccessLog {
  import opened Wrappers
  import opened LogScanner

  datatype TagCategory =
    | Fill | Host | Method | Path | Proto | Query | Remote | ClientIp | Scheme | Uri | Referrer
    | UserAgent | When | WhenUtcIso | WhenUnix | Size | SizeHuman | Status | Latency | LatencyHuman
    | Cookie | RequestHeader | ResponseHeader | Context | PayloadSize | PayloadSizeHuman | RequestId

  datatype Tag = Tag(category: TagCategory, data: Option<string>)

  /** The host name and the environment variables of the process. */
  datatype Environment = Environment(hostname: string, vars: map<string, string>)

  // ---------------------------------------------------------------------------------------------
  // Compiling
  // ---------------------------------------------------------------------------------------------

  /** Placeholders for what the request says. */
  function RequestCategory(key: string): Option<TagCategory> {
    if key == "{host}" then Some(Host)
    else if key == "{method}" then Some(Method)
    else if key == "{path}" then Some(Path)
    else if key == "{proto}" then Some(Proto)
    else if key == "{query}" then Some(Query)
    else if key == "{remote}" then Some(Remote)
    else if key == "{client_ip}" then Some(ClientIp)
    else if key == "{scheme}" then Some(Scheme)
    else if key == "{uri}" then Some(Uri)
    else if key == "{referer}" then Some(Referrer)
    else if key == "{user_agent}" then Some(UserAgent)
    else None
  }

  /** Placeholders for the clock and for what became of the request. */
  function OutcomeCategory(key: string): Option<TagCategory> {
    if key == "{when}" then Some(When)
    else if key == "{when_utc_iso}" then Some(WhenUtcIso)
    else if key == "{when_unix}" then Some(WhenUnix)
    else if key == "{size}" then Some(Size)
    else if key == "{size_human}" then Some(SizeHuman)
    else if key == "{status}" then Some(Status)
    else if key == "{latency}" then Some(Latency)
    else if key == "{latency_human}" then Some(LatencyHuman)
    else if key == "{payload_size}" then Some(PayloadSize)
    else if key == "{payload_size_human}" then Some(PayloadSizeHuman)
    else if key == "{request_id}" then Some(RequestId)
    else None
  }

  function PlainCategory(key: string): Option<TagCategory> {
    var c := RequestCategory(key);
    if c.Some? then c else OutcomeCategory(key)
  }

  function Variable(env: Environment, name: string): string {
    if name in env.vars then env.vars[name] else ""
  }

  /** Tags with a prefix: `~`, `>`, `<`, `:` and `$`. */
  function FormatExtraTag(key: string, env: Environment): Option<Tag> {
    if |key| < 3 then None
    else
      var inner := key[1..|key| - 1];
      var ch, value := inner[0], inner[1..];
      if ch == '~' then Some(Tag(Cookie, Some(value)))
      else if ch == '>' then Some(Tag(RequestHeader, Some(value)))
      else if ch == '<' then Some(Tag(ResponseHeader, Some(value)))
      else if ch == ':' then Some(Tag(Context, Some(value)))
      else if ch == '$' then
        Some(Tag(Fill, Some(if inner == "$hostname" then env.hostname else Variable(env, value))))
      else None
  }

  function TagOf(key: string, env: Environment): Option<Tag> {
    var plain := PlainCategory(key);
    if plain.Some? then Some(Tag(plain.value, None)) else FormatExtraTag(key, env)
  }

  function Tagger(env: Environment): string -> Option<Tag> {
    key => TagOf(key, env)
  }

  function FillTagger(): string -> Tag {
    text => Tag(Fill, Some(text))
  }

  predicate IsTimed(c: TagCategory) {
    c.When? || c.WhenUtcIso? || c.WhenUnix? || c.Latency? || c.LatencyHuman?
  }

  const COMBINED := "{remote}" + " \"{method} {uri} {proto}\" {status} {size_human} \"{referer}\" \"{user_agent}\""
  const COMMON := "{remote}" + " \"{method} {uri} {proto}\" {status} {size_human}\""
  const SHORT := "{remote}" + " {method} {uri} {proto} {status} {size_human} - {latency}ms"
  const TINY := "{method}" + " {uri} {status} {size_human} - {latency}ms"

  /** The predefined formats go by name; everything else is itself a template. */
  function Template(text: string): string {
    if text == "combined" then COMBINED
    else if text == "common" then COMMON
    else if text == "short" then SHORT
    else if text == "tiny" then TINY
    else text
  }

  function TagsOf(template: string, env: Environment): seq<Tag> {
    EmitAll(Pieces(template, 0), FillTagger(), Tagger(env))
  }

  datatype Parser = Parser(needsTimestamp: bool, tags: seq<Tag>) {
    predicate Valid() {
      needsTimestamp <==> exists t :: t in tags && IsTimed(t.category)
    }
  }

  method ParserFrom(text: string, env: Environment) returns (p: Parser)
    ensures p.tags == TagsOf(Template(text), env)
    ensures text == "combined" ==> p.tags == TagsOf("{remote}" +
      " \"{method} {uri} {proto}\" {status} {size_human} \"{referer}\" \"{user_agent}\"", env)
    ensures text == "common" ==>
      p.tags == TagsOf("{remote}" + " \"{method} {uri} {proto}\" {status} {size_human}\"", env)
    ensures text == "short" ==>
      p.tags == TagsOf("{remote}" + " {method} {uri} {proto} {status} {size_human} - {latency}ms", env)
    ensures text == "tiny" ==> p.tags == TagsOf("{method}" + " {uri} {status} {size_human} - {latency}ms", env)
    ensures text !in {"tiny", "short", "common", "combined"} ==> p.tags == TagsOf(text, env)
    ensures p.Valid()
  {
    var value := Template(text);
    var tags := Compile(value, FillTagger(), Tagger(env));
    p := Parser(exists t :: t in tags && IsTimed(t.category), tags);
  }

  // ---------------------------------------------------------------------------------------------
  // Formatting
  // ---------------------------------------------------------------------------------------------

  /** A moment, as the formatter prints it. */
  datatype Instant = Instant(local: string, utc: string, unixMs: u64)

  /** The number formats the formatter leaves to libraries. */
  datatype Formats = Formats(decimal: nat -> string, byteSize: nat -> string, duration: nat -> string)

  /** What the formatter reads from the session and the request context. */
  datatype Request = Request(
    host: Option<string>, verb: string, path: string, http2: bool, query: Option<string>,
    remoteAddr: Option<string>, clientIp: Option<string>, derivedClientIp: string, tls: bool,
    pathAndQuery: Option<string>, referer: string, userAgent: string, bytesSent: nat,
    status: Option<string>, createdAt: u64, cookies: map<string, string>,
    requestHeaders: map<string, string>, responseHeaders: Option<map<string, string>>,
    payloadSize: nat, requestId: Option<string>, context: map<string, string>)

  function OrEmpty(o: Option<string>): string {
    if o.Some? then o.value else ""
  }

  function Lookup(m: map<string, string>, k: string): string {
    if k in m then m[k] else ""
  }

  function RenderTimed(t: Tag, req: Request, fmt: Formats, now: Instant): string
    requires IsTimed(t.category)
  {
    match t.category
    case When => now.local
    case WhenUtcIso => now.utc
    case WhenUnix => fmt.decimal(now.unixMs)
    case Latency => fmt.decimal(WrappingSub(now.unixMs, req.createdAt))
    case LatencyHuman => fmt.duration(WrappingSub(now.unixMs, req.createdAt))
  }

  /** What one tag appends; the clock has been read only if `now` is given. */
  function RenderTag(t: Tag, req: Request, fmt: Formats, now: Option<Instant>): string {
    match t.category
    case Fill => OrEmpty(t.data)
    case Host => OrEmpty(req.host)
    case Method => req.verb
    case Path => req.path
    case Proto => if req.http2 then "HTTP/2.0" else "HTTP/1.1"
    case Query => OrEmpty(req.query)
    case Remote => OrEmpty(req.remoteAddr)
    case ClientIp => if req.clientIp.Some? then req.clientIp.value else req.derivedClientIp
    case Scheme => if req.tls then "https" else "http"
    case Uri => OrEmpty(req.pathAndQuery)
    case Referrer => req.referer
    case UserAgent => req.userAgent
    case Size => fmt.decimal(req.bytesSent)
    case SizeHuman => fmt.byteSize(req.bytesSent)
    case Status => if req.status.Some? then req.status.value else "0"
    case Cookie => if t.data.Some? then Lookup(req.cookies, t.data.value) else ""
    case RequestHeader => if t.data.Some? then Lookup(req.requestHeaders, t.data.value) else ""
    case ResponseHeader =>
      if req.responseHeaders.Some? && t.data.Some? then Lookup(req.responseHeaders.value, t.data.value) else ""
    case PayloadSize => fmt.decimal(req.payloadSize)
    case PayloadSizeHuman => fmt.byteSize(req.payloadSize)
    case RequestId => OrEmpty(req.requestId)
    case Context => if t.data.Some? then Lookup(req.context, t.data.value) else ""
    case _ => if now.Some? then RenderTimed(t, req, fmt, now.value) else ""
  }

  function Renderer(req: Request, fmt: Formats, now: Option<Instant>): Tag -> string {
    t => RenderTag(t, req, fmt, now)
  }

  lemma {:induction false} CatSnoc(tags: seq<Tag>, t: Tag, show: Tag -> string)
    ensures CatAll(tags + [t], show) == CatAll(tags, show) + show(t)
  {
    if tags == [] {
      assert CatAll([t], show) == show(t) + CatAll([], show);
    } else {
      CatSnoc(tags[1..], t, show);
      assert (tags + [t])[1..] == tags[1..] + [t];
    }
  }

  lemma UntimedTag(t: Tag, req: Request, fmt: Formats, now: Instant)
    requires !IsTimed(t.category)
    ensures RenderTag(t, req, fmt, None) == RenderTag(t, req, fmt, Some(now))
  {
  }

  /** Without timed tags it makes no difference whether the clock was read. */
  lemma {:induction false} ClockUnused(tags: seq<Tag>, req: Request, fmt: Formats, now: Instant)
    requires forall i :: 0 <= i < |tags| ==> !IsTimed(tags[i].category)
    ensures CatAll(tags, Renderer(req, fmt, None)) == CatAll(tags, Renderer(req, fmt, Some(now)))
  {
    if tags != [] {
      ClockUnused(tags[1..], req, fmt, now);
      UntimedTag(tags[0], req, fmt, now);
    }
  }

  method Format(p: Parser, req: Request, fmt: Formats, clock: Instant) returns (buf: string)
    requires p.Valid()
    ensures buf == CatAll(p.tags, Renderer(req, fmt, Some(clock)))
  {
    var now := if p.needsTimestamp then Some(clock) else None;
    buf := "";
    for i := 0 to |p.tags|
      invariant buf == CatAll(p.tags[..i], Renderer(req, fmt, now))
    {
      CatSnoc(p.tags[..i], p.tags[i], Renderer(req, fmt, now));
      assert p.tags[..i + 1] == p.tags[..i] + [p.tags[i]];
      buf := buf + RenderTag(p.tags[i], req, fmt, now);
    }
    assert p.tags[..|p.tags|] == p.tags;
    if !p.needsTimestamp {
      ClockUnused(p.tags, req, fmt, clock);
    }
  }

  // ---------------------------------------------------------------------------------------------
  // The template means what it says
  // ---------------------------------------------------------------------------------------------

  function RequestValue(key: string, req: Request): Option<string> {
    if key == "{host}" then Some(OrEmpty(req.host))
    else if key == "{method}" then Some(req.verb)
    else if key == "{path}" then Some(req.path)
    else if key == "{proto}" then Some(if req.http2 then "HTTP/2.0" else "HTTP/1.1")
    else if key == "{query}" then Some(OrEmpty(req.query))
    else if key == "{remote}" then Some(OrEmpty(req.remoteAddr))
    else if key == "{client_ip}" then Some(if req.clientIp.Some? then req.clientIp.value else req.derivedClientIp)
    else if key == "{scheme}" then Some(if req.tls then "https" else "http")
    else if key == "{uri}" then Some(OrEmpty(req.pathAndQuery))
    else if key == "{referer}" then Some(req.referer)
    else if key == "{user_agent}" then Some(req.userAgent)
    else None
  }

  function OutcomeValue(key: string, req: Request, fmt: Formats, now: Instant): Option<string> {
    if key == "{when}" then Some(now.local)
    else if key == "{when_utc_iso}" then Some(now.utc)
    else if key == "{when_unix}" then Some(fmt.decimal(now.unixMs))
    else if key == "{size}" then Some(fmt.decimal(req.bytesSent))
    else if key == "{size_human}" then Some(fmt.byteSize(req.bytesSent))
    else if key == "{status}" then Some(if req.status.Some? then req.status.value else "0")
    else if key == "{latency}" then Some(fmt.decimal(WrappingSub(now.unixMs, req.createdAt)))
    else if key == "{latency_human}" then Some(fmt.duration(WrappingSub(now.unixMs, req.createdAt)))
    else if key == "{payload_size}" then Some(fmt.decimal(req.payloadSize))
    else if key == "{payload_size_human}" then Some(fmt.byteSize(req.payloadSize))
    else if key == "{request_id}" then Some(OrEmpty(req.requestId))
    else None
  }

  function PlainValue(key: string, req: Request, fmt: Formats, now: Instant): Option<string> {
    var v := RequestValue(key, req);
    if v.Some? then v else OutcomeValue(key, req, fmt, now)
  }

  function NamedValue(key: string, env: Environment, req: Request): string {
    if |key| < 3 then ""
    else
      var name := key[2..|key| - 1];
      match key[1]
      case '~' => Lookup(req.cookies, name)
      case '>' => Lookup(req.requestHeaders, name)
      case '<' => if req.responseHeaders.Some? then Lookup(req.responseHeaders.value, name) else ""
      case ':' => Lookup(req.context, name)
      case '$' => if name == "hostname" then env.hostname else Variable(env, name)
      case _ => ""
  }

  /** What a placeholder stands for; an unknown one for nothing. */
  function Meaning(env: Environment, req: Request, fmt: Formats, now: Instant): string -> string {
    key => Value(key, env, req, fmt, now)
  }

  function Value(key: string, env: Environment, req: Request, fmt: Formats, now: Instant): string {
    var plain := PlainValue(key, req, fmt, now);
    if plain.Some? then plain.value else NamedValue(key, env, req)
  }

  lemma RequestTagMeans(key: string, req: Request, fmt: Formats, now: Instant)
    ensures match RequestCategory(key)
            case None => RequestValue(key, req) == None
            case Some(c) => RequestValue(key, req) == Some(RenderTag(Tag(c, None), req, fmt, Some(now)))
  {
  }

  lemma OutcomeTagMeans(key: string, req: Request, fmt: Formats, now: Instant)
    ensures match OutcomeCategory(key)
            case None => OutcomeValue(key, req, fmt, now) == None
            case Some(c) => OutcomeValue(key, req, fmt, now) == Some(RenderTag(Tag(c, None), req, fmt, Some(now)))
  {
  }

  lemma ExtraTagMeans(key: string, env: Environment, req: Request, fmt: Formats, now: Instant)
    ensures NamedValue(key, env, req) ==
            match FormatExtraTag(key, env)
            case None => ""
            case Some(t) => RenderTag(t, req, fmt, Some(now))
  {
    if |key| >= 3 {
      var inner := key[1..|key| - 1];
      assert inner[1..] == key[2..|key| - 1];
      assert inner == [inner[0]] + inner[1..];
      assert "$hostname" == "$" + "hostname";
      assert "$hostname"[1..] == "hostname";
    }
  }

  lemma PrefixAndName(p: string, name: string)
    requires |p| == 2
    ensures var key := p + name + "}";
      |key| >= 3 && key[1] == p[1] && key[2..|key| - 1] == name
  {
  }

  /** A placeholder with a prefix stands for what has that name, or for nothing. */
  lemma NamedExact(name: string, env: Environment, req: Request)
    ensures NamedValue("{~" + name + "}", env, req) == if name in req.cookies then req.cookies[name] else ""
    ensures NamedValue("{>" + name + "}", env, req) ==
            if name in req.requestHeaders then req.requestHeaders[name] else ""
    ensures NamedValue("{<" + name + "}", env, req) ==
            if req.responseHeaders.Some? && name in req.responseHeaders.value
            then req.responseHeaders.value[name] else ""
    ensures NamedValue("{:" + name + "}", env, req) == if name in req.context then req.context[name] else ""
    ensures NamedValue("{$" + name + "}", env, req) ==
            if name == "hostname" then env.hostname else if name in env.vars then env.vars[name] else ""
  {
    PrefixAndName("{~", name);
    PrefixAndName("{>", name);
    PrefixAndName("{<", name);
    PrefixAndName("{:", name);
    PrefixAndName("{$", name);
  }

  /** What a request does not have is printed as nothing. */
  lemma AbsentIsEmpty(req: Request, fmt: Formats, now: Instant)
    ensures PlainValue("{host}", req, fmt, now) == Some(if req.host.Some? then req.host.value else "")
    ensures PlainValue("{query}", req, fmt, now) == Some(if req.query.Some? then req.query.value else "")
    ensures PlainValue("{remote}", req, fmt, now) == Some(if req.remoteAddr.Some? then req.remoteAddr.value else "")
    ensures PlainValue("{uri}", req, fmt, now) == Some(if req.pathAndQuery.Some? then req.pathAndQuery.value else "")
    ensures PlainValue("{request_id}", req, fmt, now) == Some(if req.requestId.Some? then req.requestId.value else "")
  {
  }

  lemma TagMeans(key: string, env: Environment, req: Request, fmt: Formats, now: Instant)
    ensures Value(key, env, req, fmt, now) ==
            if TagOf(key, env).Some? then RenderTag(TagOf(key, env).value, req, fmt, Some(now)) else ""
  {
    RequestTagMeans(key, req, fmt, now);
    OutcomeTagMeans(key, req, fmt, now);
    ExtraTagMeans(key, env, req, fmt, now);
  }

  /**
    Compiling a template and rendering its tags is reading the template character by character and
    putting each placeholder's meaning in its place.
   */
  lemma FormatMeansTemplate(text: string, env: Environment, req: Request, fmt: Formats, now: Instant)
    ensures CatAll(TagsOf(Template(text), env), Renderer(req, fmt, Some(now))) ==
            Interpret(Template(text), 0, Meaning(env, req, fmt, now))
  {
    var show, meaning := Renderer(req, fmt, Some(now)), Meaning(env, req, fmt, now);
    forall key
      ensures meaning(key) == if Tagger(env)(key).Some? then show(Tagger(env)(key).value) else ""
    {
      TagMeans(key, env, req, fmt, now);
    }
    CatEmitted(Pieces(Template(text), 0), FillTagger(), Tagger(env), show, meaning);
    PiecesMeanTemplate(Template(text), 0, meaning);
  }

  lemma RequestKeyMatches(key: string, req: Request)
    requires RequestValue(key, req).Some?
    ensures MatchAt(key, 0) == Some(|key|)
  {
    MatchExact(key, 0, |key|);
  }

  lemma ClockKeyMatches(key: string)
    requires key == "{when}" || key == "{when_utc_iso}" || key == "{when_unix}"
    ensures MatchAt(key, 0) == Some(|key|)
  {
    MatchExact(key, 0, |key|);
  }

  lemma LatencyKeyMatches(key: string)
    requires key == "{latency}" || key == "{latency_human}"
    ensures MatchAt(key, 0) == Some(|key|)
  {
    MatchExact(key, 0, |key|);
  }

  lemma SizeKeyMatches(key: string)
    requires key == "{size}" || key == "{size_human}"
    ensures MatchAt(key, 0) == Some(|key|)
  {
    MatchExact(key, 0, |key|);
  }

  lemma PayloadKeyMatches(key: string)
    requires key == "{payload_size}" || key == "{payload_size_human}"
    ensures MatchAt(key, 0) == Some(|key|)
  {
    MatchExact(key, 0, |key|);
  }

  lemma StatusKeyMatches(key: string)
    requires key == "{status}" || key == "{request_id}"
    ensures MatchAt(key, 0) == Some(|key|)
  {
    MatchExact(key, 0, |key|);
  }

  lemma OutcomeKeyMatches(key: string, req: Request, fmt: Formats, now: Instant)
    requires OutcomeValue(key, req, fmt, now).Some?
    ensures MatchAt(key, 0) == Some(|key|)
  {
    if key == "{when}" || key == "{when_utc_iso}" || key == "{when_unix}" {
      ClockKeyMatches(key);
    } else if key == "{latency}" || key == "{latency_human}" {
      LatencyKeyMatches(key);
    } else if key == "{size}" || key == "{size_human}" {
      SizeKeyMatches(key);
    } else if key == "{payload_size}" || key == "{payload_size_human}" {
      PayloadKeyMatches(key);
    } else {
      StatusKeyMatches(key);
    }
  }

  lemma NotPredefined(key: string)
    requires key != "" && key[0] == '{'
    ensures Template(key) == key
  {
  }

  /** The line for a template written from pieces: its texts, and what its placeholders stand for. */
  lemma LineOfPieces(pieces: seq<Piece>, env: Environment, req: Request, fmt: Formats, now: Instant)
    requires Proper(pieces) && !Predefined(Written(pieces))
    ensures CatAll(TagsOf(Template(Written(pieces)), env), Renderer(req, fmt, Some(now))) ==
            Spell(pieces, Meaning(env, req, fmt, now))
  {
    FormatMeansTemplate(Written(pieces), env, req, fmt, now);
    WrittenIsRead(pieces, Meaning(env, req, fmt, now));
  }

  lemma OnePiece(key: string, show: string -> string)
    ensures Spell([Placeholder(key)], show) == show(key)
  {
    assert [Placeholder(key)][1..] == [];
    assert show(key) + "" == show(key);
  }

  /** Every placeholder with a value of its own is recognised: alone, it is rendered as that value. */
  lemma PlainAlone(key: string, env: Environment, req: Request, fmt: Formats, now: Instant)
    requires PlainValue(key, req, fmt, now).Some?
    ensures CatAll(TagsOf(Template(key), env), Renderer(req, fmt, Some(now))) == PlainValue(key, req, fmt, now).value
  {
    if RequestValue(key, req).Some? {
      RequestKeyMatches(key, req);
    } else {
      OutcomeKeyMatches(key, req, fmt, now);
    }
    NotPredefined(key);
    OnePiece(key, key => key);
    LineOfPieces([Placeholder(key)], env, req, fmt, now);
    OnePiece(key, Meaning(env, req, fmt, now));
  }

  // ---------------------------------------------------------------------------------------------
  // Printing the tags back
  // ---------------------------------------------------------------------------------------------

  function NameOf(c: TagCategory): string {
    match c
    case Host => "{host}" case Method => "{method}" case Path => "{path}" case Proto => "{proto}"
    case Query => "{query}" case Remote => "{remote}" case ClientIp => "{client_ip}" case Scheme => "{scheme}"
    case Uri => "{uri}" case Referrer => "{referer}" case UserAgent => "{user_agent}" case When => "{when}"
    case WhenUtcIso => "{when_utc_iso}" case WhenUnix => "{when_unix}" case Size => "{size}"
    case SizeHuman => "{size_human}" case Status => "{status}" case Latency => "{latency}"
    case LatencyHuman => "{latency_human}" case PayloadSize => "{payload_size}"
    case PayloadSizeHuman => "{payload_size_human}" case RequestId => "{request_id}"
    case _ => ""
  }

  /** The template text that a tag was compiled from. */
  function PrintTag(t: Tag): string {
    match t.category
    case Fill => OrEmpty(t.data)
    case Cookie => "{~" + OrEmpty(t.data) + "}"
    case RequestHeader => "{>" + OrEmpty(t.data) + "}"
    case ResponseHeader => "{<" + OrEmpty(t.data) + "}"
    case Context => "{:" + OrEmpty(t.data) + "}"
    case _ => NameOf(t.category)
  }

  function Printer(): Tag -> string {
    t => PrintTag(t)
  }

  /** A placeholder whose tag holds all of it: known, and not read from the environment. */
  predicate Kept(key: string) {
    PlainCategory(key).Some? ||
    (|key| >= 3 && (key[1] == '~' || key[1] == '>' || key[1] == '<' || key[1] == ':'))
  }

  function PrintedKey(key: string, env: Environment): string {
    if TagOf(key, env).Some? then PrintTag(TagOf(key, env).value) else ""
  }

  function KeyPrinter(env: Environment): string -> string {
    key => PrintedKey(key, env)
  }

  lemma RequestNames(key: string)
    requires RequestCategory(key).Some?
    ensures PrintTag(Tag(RequestCategory(key).value, None)) == key
  {
  }

  lemma OutcomeNames(key: string)
    requires OutcomeCategory(key).Some?
    ensures PrintTag(Tag(OutcomeCategory(key).value, None)) == key
  {
  }

  lemma ExtraNames(key: string, env: Environment)
    requires Braced(key) && |key| >= 3 && (key[1] == '~' || key[1] == '>' || key[1] == '<' || key[1] == ':')
    ensures FormatExtraTag(key, env).Some? && PrintTag(FormatExtraTag(key, env).value) == key
  {
    var value := key[1..|key| - 1][1..];
    assert key == ['{', key[1]] + value + ['}'];
  }

  lemma KeptIsPrinted(key: string, env: Environment)
    requires Braced(key) && Kept(key)
    ensures PrintedKey(key, env) == key
  {
    if RequestCategory(key).Some? {
      RequestNames(key);
    } else if OutcomeCategory(key).Some? {
      OutcomeNames(key);
    } else {
      ExtraNames(key, env);
    }
  }

  const UNSET := Environment("", map[])

  lemma LostIsNotPrinted(key: string)
    requires !Kept(key)
    ensures PrintedKey(key, UNSET) == ""
  {
  }

  predicate AllKept(pieces: seq<Piece>) {
    forall p :: p in pieces && p.Placeholder? ==> Kept(p.key)
  }

  lemma {:induction false} SpelledLength(pieces: seq<Piece>)
    requires forall p :: p in pieces && p.Placeholder? ==> Braced(p.key)
    ensures |Spell(pieces, KeyPrinter(UNSET))| <= |Spell(pieces, key => key)|
    ensures !AllKept(pieces) ==> |Spell(pieces, KeyPrinter(UNSET))| < |Spell(pieces, key => key)|
  {
    if pieces != [] {
      SpelledLength(pieces[1..]);
      var p := pieces[0];
      if p.Placeholder? {
        if Kept(p.key) {
          KeptIsPrinted(p.key, UNSET);
        } else {
          LostIsNotPrinted(p.key);
        }
      }
    }
  }

  lemma {:induction false} SpelledAlike(pieces: seq<Piece>, env: Environment)
    requires forall p :: p in pieces && p.Placeholder? ==> Braced(p.key)
    requires AllKept(pieces)
    ensures Spell(pieces, KeyPrinter(env)) == Spell(pieces, key => key)
  {
    if pieces != [] {
      SpelledAlike(pieces[1..], env);
      if pieces[0].Placeholder? {
        KeptIsPrinted(pieces[0].key, env);
      }
    }
  }

  function PrintAll(template: string, env: Environment): string {
    CatAll(TagsOf(template, env), Printer())
  }

  lemma PrintAllSpells(template: string, env: Environment)
    ensures PrintAll(template, env) == Spell(Pieces(template, 0), KeyPrinter(env))
  {
    CatEmitted(Pieces(template, 0), FillTagger(), Tagger(env), Printer(), KeyPrinter(env));
  }

  /** Whatever the environment, the tags print as the template exactly when every placeholder is kept. */
  lemma TemplatePrintsBack(template: string)
    ensures (forall env :: PrintAll(template, env) == template) <==> AllKept(Pieces(template, 0))
  {
    PiecesAreBraced(template, 0);
    PiecesPartition(template);
    if AllKept(Pieces(template, 0)) {
      forall env
        ensures PrintAll(template, env) == template
      {
        PrintAllSpells(template, env);
        SpelledAlike(Pieces(template, 0), env);
      }
    } else {
      PrintAllSpells(template, UNSET);
      SpelledLength(Pieces(template, 0));
      assert PrintAll(template, UNSET) != template;
    }
  }

  predicate Predefined(text: string) {
    text == "combined" || text == "common" || text == "short" || text == "tiny"
  }

  lemma StartsWithPlaceholder(s: string, end: nat, env: Environment)
    requires 2 <= end <= |s| && s[0] == '{' && s[end - 1] == '}' && PlainCategory(s[..end]).Some?
    requires forall k :: 1 <= k < end - 1 ==> NameChar(s[k])
    ensures PrintAll(s, env) != "" && PrintAll(s, env)[0] == '{'
  {
    MatchExact(s, 0, end);
    PrintAllSpells(s, env);
    PiecesMeanTemplate(s, 0, KeyPrinter(env));
    KeptIsPrinted(s[..end], env);
    assert s[0..end] == s[..end];
  }

  lemma PredefinedStart(text: string, env: Environment)
    requires Predefined(text)
    ensures PrintAll(Template(text), env) != "" && PrintAll(Template(text), env)[0] == '{'
  {
    var s := Template(text);
    var first := if text == "tiny" then "{method}" else "{remote}";
    assert s[..8] == first;
    assert forall k :: 1 <= k < 7 ==> NameChar(first[k]);
    StartsWithPlaceholder(s, 8, env);
  }

  /**
    The configured text comes back from its tags, whatever the environment, exactly when it does not
    name a predefined format and every placeholder in it is known and none is a `$` one.
   */
  lemma TextPrintsBack(text: string)
    ensures (forall env :: PrintAll(Template(text), env) == text)
            <==> !Predefined(text) && AllKept(Pieces(text, 0))
  {
    if Predefined(text) {
      PredefinedStart(text, UNSET);
      assert text[0] != '{';
    } else {
      assert Template(text) == text;
      TemplatePrintsBack(text);
    }
  }
}
