/** The HTTP server of the Go backend: the CORS origin policy, the port
    argument of the two listeners, and what the WebSocket read loop
    answers to each message.

    The configuration is an input (`None` when it was never loaded), and
    so are the host name `url.Parse` finds in an origin, the outcome of
    decoding a FRAME's payload and the state of the ML service.

    Unlike the handlers, this module reads a string as decoded code points:
    each `char` of the configured origin list is one rune, because
    `strings.TrimSpace` strips Unicode white space rune by rune, and the
    ',' split and the comparisons give the same answers on runes as on
    their UTF-8 bytes. */
module Server {
  import opened Wrappers
  import Strings

  /** The two settings of `config.Config` the policy reads. */
  datatype Config = Config(corsOrigins: string, environment: string)

  /** `IsDev`: the environment is exactly "dev". */
  predicate IsDev(cfg: Config) {
    cfg.environment == "dev"
  }

  const DefaultOrigin: string := "http://localhost:5000"

  // ---------------------------------------------------------------------
  // getAllowedOrigins
  // ---------------------------------------------------------------------

  /** The trimmed pieces that are not blank, in order. */
  function NonBlank(pieces: seq<string>): (r: seq<string>)
    ensures |r| <= |pieces|
    ensures forall k :: 0 <= k < |r| ==> r[k] != [] && Strings.TrimSpace(r[k]) == r[k]
    decreases |pieces|
  {
    if pieces == [] then []
    else
      var t := Strings.TrimSpace(pieces[0]);
      TrimSpaceIdempotent(pieces[0]);
      if t == [] then NonBlank(pieces[1..]) else [t] + NonBlank(pieces[1..])
  }

  /** A string with no white space at either end is its own trim. */
  lemma TrimSpaceKeeps(s: string)
    requires s != [] && !Strings.IsSpace(s[0]) && !Strings.IsSpace(s[|s| - 1])
    ensures Strings.TrimSpace(s) == s
  {
    assert Strings.LeadingSpaces(s) == 0;
    assert s[0..] == s;
    assert Strings.TrailingSpaces(s) == 0;
  }

  /** Trimming twice trims nothing more. */
  lemma TrimSpaceIdempotent(s: string)
    ensures Strings.TrimSpace(Strings.TrimSpace(s)) == Strings.TrimSpace(s)
  {
    var t := Strings.TrimSpace(s);
    if t != [] {
      TrimSpaceKeeps(t);
    }
  }

  /** An origin is among the entries exactly when some piece trims to it
      and it is not blank. */
  lemma {:induction false} NonBlankMembers(pieces: seq<string>, o: string)
    ensures o in NonBlank(pieces) <==> o != [] && exists k :: 0 <= k < |pieces| && Strings.TrimSpace(pieces[k]) == o
    decreases |pieces|
  {
    if pieces != [] {
      NonBlankMembers(pieces[1..], o);
      var tail := pieces[1..];
      assert forall k :: 1 <= k < |pieces| ==> pieces[k] == tail[k - 1];
      if o != [] && (exists k :: 0 <= k < |pieces| && Strings.TrimSpace(pieces[k]) == o) {
        var k :| 0 <= k < |pieces| && Strings.TrimSpace(pieces[k]) == o;
        if k > 0 {
          assert Strings.TrimSpace(tail[k - 1]) == o;
        }
      }
    }
  }

  lemma DefaultIsTrimmed()
    ensures DefaultOrigin != [] && Strings.TrimSpace(DefaultOrigin) == DefaultOrigin
  {
    TrimSpaceKeeps(DefaultOrigin);
  }

  /** What `getAllowedOrigins` returns: the default origin without a
      configuration or with a blank one; otherwise the non-blank trimmed
      pieces between commas, or the default again when there are none. */
  function AllowedOrigins(cfg: Option<Config>): (r: seq<string>)
    ensures |r| >= 1
    ensures forall k :: 0 <= k < |r| ==> r[k] != [] && Strings.TrimSpace(r[k]) == r[k]
  {
    DefaultIsTrimmed();
    if cfg.None? || Strings.TrimSpace(cfg.value.corsOrigins) == [] then [DefaultOrigin]
    else
      var origins := NonBlank(Strings.Split(cfg.value.corsOrigins, ','));
      if |origins| == 0 then [DefaultOrigin] else origins
  }

  /** With a configured list that has a non-blank entry, exactly its
      entries are allowed; with none, exactly the default. */
  lemma AllowedOriginsMembers(cfg: Option<Config>, o: string)
    ensures var pieces := if cfg.Some? then Strings.Split(cfg.value.corsOrigins, ',') else [];
      var listed := o != [] && exists k :: 0 <= k < |pieces| && Strings.TrimSpace(pieces[k]) == o;
      (o in AllowedOrigins(cfg) <==> listed || (AllowedOrigins(cfg) == [DefaultOrigin] && o == DefaultOrigin))
  {
    if cfg.Some? {
      var pieces := Strings.Split(cfg.value.corsOrigins, ',');
      NonBlankMembers(pieces, o);
      if Strings.TrimSpace(cfg.value.corsOrigins) == [] {
        BlankListHasNoEntries(cfg.value.corsOrigins, o);
      }
    }
  }

  /** A blank list yields no entry. */
  lemma BlankListHasNoEntries(s: string, o: string)
    requires Strings.TrimSpace(s) == []
    ensures o in NonBlank(Strings.Split(s, ',')) ==> o == []
  {
    assert ',' !in s by {
      assert forall i :: 0 <= i < |s| ==> Strings.IsSpace(s[i]);
    }
    SplitWithoutSeparator(s, ',');
    assert NonBlank([s]) == [] by {
      assert NonBlank([s][1..]) == [];
    }
  }

  /** Without the separator there is one piece, the whole string. */
  lemma {:induction false} SplitWithoutSeparator(s: string, sep: char)
    requires sep !in s
    ensures Strings.Split(s, sep) == [s]
    decreases |s|
  {
    if s != [] {
      assert sep !in s[1..];
      SplitWithoutSeparator(s[1..], sep);
      assert [s[0]] + s[1..] == s;
    }
  }

  /** `getAllowedOrigins`: one pass over the comma-separated pieces,
      appending each non-blank trimmed piece. */
  method GetAllowedOrigins(cfg: Option<Config>) returns (origins: seq<string>)
    ensures origins == AllowedOrigins(cfg)
  {
    if cfg.None? || Strings.TrimSpace(cfg.value.corsOrigins) == [] {
      return [DefaultOrigin];
    }
    var raw := Strings.Split(cfg.value.corsOrigins, ',');
    origins := [];
    for i := 0 to |raw|
      invariant origins + NonBlank(raw[i..]) == NonBlank(raw)
    {
      assert raw[i..][1..] == raw[i + 1..];
      var o := Strings.TrimSpace(raw[i]);
      if o == [] {
        continue;
      }
      origins := origins + [o];
    }
    assert raw[|raw|..] == [];
    if |origins| == 0 {
      return [DefaultOrigin];
    }
  }

  // ---------------------------------------------------------------------
  // isLocalOrigin, isOriginAllowed, determineAllowOrigin
  // ---------------------------------------------------------------------

  /** `isLocalOrigin`: `host` is the host name `url.Parse` finds in the
      origin, `None` when parsing fails. */
  predicate IsLocalOrigin(origin: string, host: Option<string>) {
    origin != [] && host.Some? && (host.value == "localhost" || host.value == "127.0.0.1")
  }

  /** An entry of the list lets the origin in: a wildcard, the same origin,
      or a local entry while the origin is itself local. */
  predicate EntryAdmits(allowed: string, origin: string, host: Option<string>) {
    allowed == "*" || origin == allowed
    || ((Strings.Contains(allowed, "localhost") || Strings.Contains(allowed, "127.0.0.1"))
        && IsLocalOrigin(origin, host))
  }

  /** The policy `isOriginAllowed` implements: nothing without a
      configuration; a missing origin only in development; otherwise
      some entry admits it, or development admits any local origin. */
  predicate OriginAllowed(cfg: Option<Config>, origin: string, host: Option<string>) {
    cfg.Some?
    && (origin == [] ==> IsDev(cfg.value))
    && (origin != [] ==>
          (exists k :: 0 <= k < |AllowedOrigins(cfg)| && EntryAdmits(AllowedOrigins(cfg)[k], origin, host))
          || (IsDev(cfg.value) && IsLocalOrigin(origin, host)))
  }

  /** The loop of `isOriginAllowed`: the entries are tried in order and
      the first that admits the origin ends the search. */
  method AnyEntryAdmits(entries: seq<string>, origin: string, host: Option<string>) returns (found: bool)
    ensures found <==> exists k :: 0 <= k < |entries| && EntryAdmits(entries[k], origin, host)
  {
    for i := 0 to |entries|
      invariant forall k :: 0 <= k < i ==> !EntryAdmits(entries[k], origin, host)
    {
      var allowed := entries[i];
      if allowed == "*" {
        assert EntryAdmits(entries[i], origin, host);
        return true;
      }
      if origin == allowed {
        assert EntryAdmits(entries[i], origin, host);
        return true;
      }
      if Strings.Contains(allowed, "localhost") || Strings.Contains(allowed, "127.0.0.1") {
        if IsLocalOrigin(origin, host) {
          assert EntryAdmits(entries[i], origin, host);
          return true;
        }
      }
    }
    return false;
  }

  /** `isOriginAllowed`. */
  method IsOriginAllowed(cfg: Option<Config>, origin: string, host: Option<string>) returns (ok: bool)
    ensures ok == OriginAllowed(cfg, origin, host)
  {
    if cfg.None? {
      return false;
    }
    if origin == [] {
      return IsDev(cfg.value);
    }
    var entries := GetAllowedOrigins(cfg);
    var found := AnyEntryAdmits(entries, origin, host);
    if found {
      return true;
    }
    if IsDev(cfg.value) && IsLocalOrigin(origin, host) {
      return true;
    }
    return false;
  }

  /** `determineAllowOrigin`: an allowed origin is echoed; any other gets
      the first entry of the list ("*" when that entry is the wildcard).
      The list is never empty, so its "*" for an empty list never fires. */
  method DetermineAllowOrigin(cfg: Option<Config>, requestOrigin: string, host: Option<string>) returns (allow: string)
    ensures OriginAllowed(cfg, requestOrigin, host) ==> allow == requestOrigin
    ensures !OriginAllowed(cfg, requestOrigin, host) ==> allow == AllowedOrigins(cfg)[0]
    ensures allow == requestOrigin || allow in AllowedOrigins(cfg)
  {
    var ok := IsOriginAllowed(cfg, requestOrigin, host);
    if ok {
      return requestOrigin;
    }
    var origins := GetAllowedOrigins(cfg);
    if |origins| == 0 || origins[0] == "*" {
      return "*";
    }
    return origins[0];
  }

  /** A wildcard entry admits every non-empty origin. */
  lemma WildcardAdmitsAll(cfg: Option<Config>, origin: string, host: Option<string>)
    requires cfg.Some? && "*" in AllowedOrigins(cfg) && origin != []
    ensures OriginAllowed(cfg, origin, host)
  {
    var k :| 0 <= k < |AllowedOrigins(cfg)| && AllowedOrigins(cfg)[k] == "*";
    assert EntryAdmits(AllowedOrigins(cfg)[k], origin, host);
  }

  /** With the default list a local origin is admitted in any environment,
      since the default entry names localhost. */
  lemma DefaultAdmitsLocal(cfg: Config, origin: string, host: Option<string>)
    requires AllowedOrigins(Some(cfg)) == [DefaultOrigin]
    requires IsLocalOrigin(origin, host)
    ensures OriginAllowed(Some(cfg), origin, host)
  {
    assert Strings.OccursAt(DefaultOrigin, "localhost", 7);
    assert EntryAdmits(AllowedOrigins(Some(cfg))[0], origin, host);
  }

  /** Outside development, an origin that is neither listed nor local is
      refused, and a request without an origin is refused too. */
  lemma ProductionRefusesUnlisted(cfg: Config, origin: string, host: Option<string>)
    requires !IsDev(cfg) && !IsLocalOrigin(origin, host)
    requires forall k :: 0 <= k < |AllowedOrigins(Some(cfg))| ==>
      AllowedOrigins(Some(cfg))[k] != "*" && AllowedOrigins(Some(cfg))[k] != origin
    ensures !OriginAllowed(Some(cfg), origin, host)
  {
  }

  // ---------------------------------------------------------------------
  // The listeners' port argument
  // ---------------------------------------------------------------------

  /** `startGRPCServer` and `startHTTPServer`: one leading colon, if there
      is one, is dropped; the listener then binds `":" + port`. */
  function StripPort(port: string): (r: string)
    ensures |port| > 0 && port[0] == ':' ==> ":" + r == port
    ensures !(|port| > 0 && port[0] == ':') ==> r == port
  {
    if |port| > 0 && port[0] == ':' then port[1..] else port
  }

  /** ":8080" and "8080" make the listener bind the same address. */
  lemma ListenAddressEitherForm(port: string)
    requires !(|port| > 0 && port[0] == ':')
    ensures ":" + StripPort(":" + port) == ":" + StripPort(port)
  {
  }

  /** Only one colon goes: "::8080" keeps one. */
  lemma StripPortOnce()
    ensures StripPort("::8080") == ":8080"
  {
  }

  // ---------------------------------------------------------------------
  // readPump
  // ---------------------------------------------------------------------

  /** How far the FRAME payload got: re-encoding it failed, it is not a
      frame message, or it is one. */
  datatype FramePayload = MarshalFailed | BadFormat | Parsed(frame: string, timestamp: int, sequenceNumber: int)

  /** The detection the ML service returns. */
  datatype Detection = Detection(isDrowsy: bool, drowsinessScore: real, alertLevel: string, inferenceTimeMs: real)

  /** The ML service: no client, or a client whose health check passes or
      not and whose call for this frame returns a detection or fails. */
  datatype MlService = NoClient | Client(healthy: bool, result: Option<Detection>)

  /** One message read from the socket, with what the server's
      surroundings answer for it. `decoded` is the base64 decoding of the
      frame, `None` when it is not valid base64. */
  datatype Incoming = Incoming(msgType: string, payload: FramePayload, decoded: Option<seq<bv8>>, ml: MlService, now: int)

  /** What the server writes back. */
  datatype Outgoing =
    | Pong(clientId: string, timestamp: int)
    | ErrorMessage(message: string)
    | DetectionResult(clientId: string, timestamp: int, isDrowsy: bool, drowsinessScore: real,
                      alertLevel: string, inferenceTime: real, sequenceNumber: int)

  const InvalidPayloadFormat: string := "Invalid payload format"
  const InvalidFrameFormat: string := "Invalid frame data format"
  const InvalidBase64: string := "Invalid base64"
  const MlUnavailable: string := "ML service unavailable"
  const MlDisconnected: string := "ML service disconnected"
  const ProcessingFailed: string := "Processing failed"

  /** The FRAME case: the first step that fails decides the reply, an
      empty frame is dropped without a reply, and a processed frame's
      result echoes its sequence number. */
  function FrameReply(clientId: string, m: Incoming): (r: Option<Outgoing>)
    ensures r == Some(ErrorMessage(InvalidPayloadFormat)) <==> m.payload.MarshalFailed?
    ensures r == Some(ErrorMessage(InvalidFrameFormat)) <==> m.payload.BadFormat?
    ensures r == Some(ErrorMessage(InvalidBase64)) <==> m.payload.Parsed? && m.decoded.None?
    ensures r.None? <==> m.payload.Parsed? && m.decoded == Some([])
    ensures r == Some(ErrorMessage(MlUnavailable)) <==>
      m.payload.Parsed? && m.decoded.Some? && m.decoded.value != [] && m.ml.NoClient?
    ensures r == Some(ErrorMessage(MlDisconnected)) <==>
      m.payload.Parsed? && m.decoded.Some? && m.decoded.value != [] && m.ml.Client? && !m.ml.healthy
    ensures r == Some(ErrorMessage(ProcessingFailed)) <==>
      m.payload.Parsed? && m.decoded.Some? && m.decoded.value != [] && m.ml.Client? && m.ml.healthy
      && m.ml.result.None?
    ensures r.Some? && r.value.DetectionResult? <==>
      m.payload.Parsed? && m.decoded.Some? && m.decoded.value != [] && m.ml.Client? && m.ml.healthy
      && m.ml.result.Some?
    ensures r.Some? && r.value.DetectionResult? ==>
      var d := m.ml.result.value;
      r.value == DetectionResult(clientId, m.now, d.isDrowsy, d.drowsinessScore, d.alertLevel,
                                 d.inferenceTimeMs, m.payload.sequenceNumber)
  {
    match m.payload
    case MarshalFailed => Some(ErrorMessage(InvalidPayloadFormat))
    case BadFormat => Some(ErrorMessage(InvalidFrameFormat))
    case Parsed(_, _, sequenceNumber) =>
      match m.decoded
      case None => Some(ErrorMessage(InvalidBase64))
      case Some(bytes) =>
        if bytes == [] then None
        else match m.ml
          case NoClient => Some(ErrorMessage(MlUnavailable))
          case Client(healthy, result) =>
            if !healthy then Some(ErrorMessage(MlDisconnected))
            else match result
              case None => Some(ErrorMessage(ProcessingFailed))
              case Some(d) =>
                Some(DetectionResult(clientId, m.now, d.isDrowsy, d.drowsinessScore, d.alertLevel,
                                     d.inferenceTimeMs, sequenceNumber))
  }

  /** The reply to one message: PING gets a PONG with the client's id,
      FRAME as above, any other type nothing. */
  function Reply(clientId: string, m: Incoming): (r: Option<Outgoing>)
    ensures m.msgType == "PING" <==> r.Some? && r.value.Pong?
    ensures m.msgType == "PING" ==> r == Some(Pong(clientId, m.now))
    ensures m.msgType != "PING" && m.msgType != "FRAME" ==> r.None?
    ensures r.Some? && r.value.DetectionResult? ==> m.msgType == "FRAME" && r.value.clientId == clientId
  {
    if m.msgType == "PING" then Some(Pong(clientId, m.now))
    else if m.msgType == "FRAME" then FrameReply(clientId, m)
    else None
  }

  /** The replies to a run of messages, in order. */
  function Replies(clientId: string, msgs: seq<Incoming>): seq<Outgoing>
    decreases |msgs|
  {
    if msgs == [] then []
    else
      var init := Replies(clientId, msgs[..|msgs| - 1]);
      match Reply(clientId, msgs[|msgs| - 1])
      case None => init
      case Some(o) => init + [o]
  }

  /** Every message gets at most one reply, and every PING gets one, so a
      client that only pings gets exactly as many replies as it sent. */
  lemma {:induction false} RepliesBounded(clientId: string, msgs: seq<Incoming>)
    ensures |Replies(clientId, msgs)| <= |msgs|
    ensures (forall k :: 0 <= k < |msgs| ==> msgs[k].msgType == "PING") ==> |Replies(clientId, msgs)| == |msgs|
    decreases |msgs|
  {
    if msgs != [] {
      RepliesBounded(clientId, msgs[..|msgs| - 1]);
    }
  }

  /** `readPump`: messages are read and answered one after another until
      the read fails (the end of `msgs`); each reply goes to the client's
      send queue. */
  method ReadPump(clientId: string, msgs: seq<Incoming>) returns (sent: seq<Outgoing>)
    ensures sent == Replies(clientId, msgs)
  {
    sent := [];
    for i := 0 to |msgs|
      invariant sent == Replies(clientId, msgs[..i])
    {
      assert msgs[..i + 1][..i] == msgs[..i];
      var m := msgs[i];
      if m.msgType == "PING" {
        sent := sent + [Pong(clientId, m.now)];
      } else if m.msgType == "FRAME" {
        var r := FrameReply(clientId, m);
        if r.Some? {
          sent := sent + [r.value];
        }
      }
    }
    assert msgs[..|msgs|] == msgs;
  }
}
