// The TCP handshake between an attaching client and the host
// (crates/locho-core/src/session.rs, src/host.rs).

module Handshake {
  import opened Bytes
  import opened Frames

  type Version = v: nat | v < 0x100
  type Status = s: nat | s < 0x1_0000

  const PROTOCOL_VERSION: Version := 3

  datatype RequestHead =
    | Tcp(version: Version, service: string, proof: string)
    | Http(version: Version, service: string, proof: string)

  datatype ResponseHead = ResponseHead(
    version: Version,
    status: Status,
    headers: seq<(string, string)>,
    bodyLen: Option<nat>)

  // The head encodings and the secret proof, as functions nothing here looks into.
  datatype Codec = Codec(
    writeRequest: RequestHead -> Bytes,
    readRequest: Bytes -> Option<RequestHead>,
    writeResponse: ResponseHead -> Bytes,
    readResponse: Bytes -> Option<ResponseHead>,
    proofOf: string -> string)

  // Reading undoes writing, and the host's own response heads are short.
  ghost predicate Lawful(c: Codec) {
    && (forall h :: c.readRequest(c.writeRequest(h)) == Some(h))
    && (forall h :: c.readResponse(c.writeResponse(h)) == Some(h))
    && (forall status: Status :: |c.writeResponse(Plainly(status))| <= MAX_HEAD_LEN)
  }

  // Every host answer to a TCP head: a status, no headers, no body.
  function Plainly(status: Status): ResponseHead {
    ResponseHead(PROTOCOL_VERSION, status, [], Some(0))
  }

  // ----- the host -----

  datatype Service = Service(name: string, tcp: bool, hasEndpoint: bool)

  datatype Connect = Connected | Unavailable | TimedOut

  datatype Host = Host(services: seq<Service>, secrets: map<string, string>, permits: nat, connect: Connect)

  function Find(services: seq<Service>, name: string): (r: Option<Service>)
    ensures r.Some? ==> r.value in services && r.value.name == name
    ensures r.None? ==> forall s :: s in services ==> s.name != name
  {
    if services == [] then None
    else if services[0].name == name then Some(services[0])
    else Find(services[1..], name)
  }

  // What the host writes and whether it relays from here; a service without a
  // secret ends the stream with nothing written.
  datatype Verdict = Verdict(status: Option<Status>, relays: bool)

  function Judge(c: Codec, host: Host, head: RequestHead): Verdict {
    if head.Http? then Verdict(None, false)
    else if head.version != PROTOCOL_VERSION then Verdict(Some(400), false)
    else match Find(host.services, head.service)
      case None => Verdict(Some(404), false)
      case Some(service) =>
        if service.name !in host.secrets then Verdict(None, false)
        else if c.proofOf(host.secrets[service.name]) != head.proof then Verdict(Some(403), false)
        else if !service.tcp || !service.hasEndpoint then Verdict(Some(400), false)
        else if host.permits == 0 then Verdict(Some(429), false)
        else match host.connect
          case Unavailable => Verdict(Some(502), false)
          case TimedOut => Verdict(Some(504), false)
          case Connected => Verdict(Some(200), true)
  }

  // The host's stream handler up to the relay; `late` is whether the head took
  // too long. HTTP heads are another handler's.
  method HandleStream(c: Codec, host: Host, reader: Source, writer: Sink, late: bool) returns (relays: bool)
    requires Lawful(c)
    modifies reader, writer
    ensures late ==> !relays && writer.View() == Push(old(writer.View()), Frame(c.writeResponse(Plainly(408))))
    ensures !late ==>
            match TakeFrame(old(reader.left), MAX_HEAD_LEN)
            case Refused =>
              !relays && writer.View() == Push(old(writer.View()), Frame(c.writeResponse(Plainly(400))))
            case Taken(data, rest) =>
              match c.readRequest(data)
              case None =>
                !relays && writer.View() == Push(old(writer.View()), Frame(c.writeResponse(Plainly(400))))
              case Some(head) =>
                var v := Judge(c, host, head);
                && (relays <==> v.relays && Fits(old(writer.View()), Frame(c.writeResponse(Plainly(200)))))
                && reader.left == rest
                && writer.View() == if v.status.None? then old(writer.View())
                                    else Push(old(writer.View()), Frame(c.writeResponse(Plainly(v.status.value))))
  {
    hide TakeFrame, Push, Frame, Judge;
    if late {
      var _ := writer.WriteFrame(c.writeResponse(Plainly(408)));
      return false;
    }
    var data := reader.ReadFrame(MAX_HEAD_LEN);
    var head := if data.None? then None else c.readRequest(data.value);
    if head.None? {
      var _ := writer.WriteFrame(c.writeResponse(Plainly(400)));
      return false;
    }
    var v := Judge(c, host, head.value);
    if v.status.None? {
      StatusOfRelay(c, host, head.value);
      return false;
    }
    StatusOfRelay(c, host, head.value);
    var sent := writer.WriteFrame(c.writeResponse(Plainly(v.status.value)));
    return v.relays && sent;
  }

  // Each answer means that one check failed, all before it having passed; the
  // host says nothing only to a service it holds no secret for.
  lemma AnswerIff(c: Codec, host: Host, head: RequestHead)
    requires head.Tcp?
    ensures var service := Find(host.services, head.service); var v := Judge(c, host, head).status;
            var known := head.version == PROTOCOL_VERSION && service.Some?;
            var proved := known && service.value.name in host.secrets
                          && c.proofOf(host.secrets[service.value.name]) == head.proof;
            var typed := proved && service.value.tcp && service.value.hasEndpoint;
            && (v == Some(404) <==> head.version == PROTOCOL_VERSION && service.None?)
            && (v == None <==> known && service.value.name !in host.secrets)
            && (v == Some(403) <==> known && service.value.name in host.secrets && !proved)
            && (v == Some(400) <==> head.version != PROTOCOL_VERSION || (proved && !typed))
            && (v == Some(429) <==> typed && host.permits == 0)
            && (v == Some(502) <==> typed && host.permits > 0 && host.connect == Unavailable)
            && (v == Some(504) <==> typed && host.permits > 0 && host.connect == TimedOut)
            && (v == Some(200) <==> typed && host.permits > 0 && host.connect == Connected)
  {
  }

  lemma StatusOfRelay(c: Codec, host: Host, head: RequestHead)
    ensures Judge(c, host, head).relays <==> Judge(c, host, head).status == Some(200)
  {
  }

  // ----- the client -----

  datatype ClientError = Transport | Protocol | ServiceRejected(status: Status) | GaveUp

  datatype Capability = Capability(service: string, secret: string)

  function RequestFor(c: Codec, cap: Capability): RequestHead {
    Tcp(PROTOCOL_VERSION, cap.service, c.proofOf(cap.secret))
  }

  // What the client makes of the bytes the host sends back.
  function Read(c: Codec, input: Bytes): Result<Bytes, ClientError> {
    match TakeFrame(input, MAX_HEAD_LEN)
    case Refused => Err(Protocol)
    case Taken(data, rest) =>
      match c.readResponse(data)
      case None => Err(Protocol)
      case Some(head) =>
        if head.version != PROTOCOL_VERSION || !(100 <= head.status <= 599) then Err(Protocol)
        else if head.status != 200 then Err(ServiceRejected(head.status))
        else if head.bodyLen != Some(0) || head.headers != [] then Err(Protocol)
        else Ok(rest)
  }

  method WriteRequest(c: Codec, cap: Capability, writer: Sink) returns (ok: bool)
    modifies writer
    ensures var json := c.writeRequest(RequestFor(c, cap));
            if |json| < U32_LIMIT
            then && writer.View() == Push(old(writer.View()), Frame(json))
                 && (ok <==> Fits(old(writer.View()), Frame(json)))
            else !ok && writer.View() == old(writer.View())
  {
    var json := c.writeRequest(RequestFor(c, cap));
    if |json| >= U32_LIMIT {
      return false;
    }
    ok := writer.WriteFrame(json);
  }

  // The second half of `authorize_tcp`; on success the reader stands at the
  // first byte behind the head.
  method ReadResponse(c: Codec, reader: Source) returns (r: Result<(), ClientError>)
    modifies reader
    ensures match Read(c, old(reader.left))
            case Ok(rest) => r == Ok(()) && reader.left == rest
            case Err(e) => r == Err(e)
  {
    hide TakeFrame;
    var data := reader.ReadFrame(MAX_HEAD_LEN);
    if data.None? {
      return Err(Protocol);
    }
    var head := c.readResponse(data.value);
    if head.None? || head.value.version != PROTOCOL_VERSION || !(100 <= head.value.status <= 599) {
      return Err(Protocol);
    }
    if head.value.status != 200 {
      return Err(ServiceRejected(head.value.status));
    }
    if head.value.bodyLen != Some(0) || head.value.headers != [] {
      return Err(Protocol);
    }
    return Ok(());
  }

  // ----- both ends -----

  // Every check the host makes on a client holding `cap`.
  predicate Admitted(c: Codec, host: Host, cap: Capability) {
    var service := Find(host.services, cap.service);
    && service.Some?
    && cap.service in host.secrets
    && c.proofOf(host.secrets[cap.service]) == c.proofOf(cap.secret)
    && service.value.tcp && service.value.hasEndpoint
    && host.permits > 0
    && host.connect == Connected
  }

  lemma JudgeIff(c: Codec, host: Host, cap: Capability)
    ensures Judge(c, host, RequestFor(c, cap)).relays <==> Admitted(c, host, cap)
  {
  }

  // What gets through of a stream.
  function Cut(all: Bytes, n: nat): Bytes {
    if n <= |all| then all[..n] else all
  }

  // Of a frame and what is behind it, either the whole frame gets through or
  // nothing is read as one.
  lemma CutFrame(data: Bytes, behind: Bytes, n: nat, max: nat)
    requires |data| < U32_LIMIT
    ensures n >= |Frame(data)| ==> Cut(Frame(data) + behind, n) == Frame(data) + Cut(behind, n - |Frame(data)|)
    ensures n < |Frame(data)| ==> TakeFrame(Cut(Frame(data) + behind, n), max) == Refused
  {
    hide Frame, TakeFrame;
    if n < |Frame(data)| {
      assert Cut(Frame(data) + behind, n) == Frame(data)[..n];
      TakeFrameCut(data, max, Frame(data)[..n]);
    }
  }

  // The client writes its head and then `up`, of which `arrives` bytes get through
  // to the host; `late` is whether the head took too long. The host's writer takes
  // `room` bytes of its answer, and behind it the host sends `down` if it relays.
  // Of all that, `reaches` bytes reach the client, unless it gave up before.
  //
  // The host relays exactly when the head arrived whole and in time and is not too
  // long, every check passed and the answer was written. The client gets a stream
  // exactly when the host relays and its whole answer comes in time. Then each
  // stands at the other's first application byte.
  method Shake(c: Codec, host: Host, cap: Capability, up: Bytes, down: Bytes,
               arrives: nat, late: bool, room: nat, reaches: nat, gaveUp: bool)
      returns (result: Result<(), ClientError>, relays: bool, hostLeft: Bytes, clientLeft: Bytes)
    requires Lawful(c) && |c.writeRequest(RequestFor(c, cap))| < U32_LIMIT
    ensures var json := c.writeRequest(RequestFor(c, cap));
            relays <==> && Admitted(c, host, cap) && |json| <= MAX_HEAD_LEN && !late
                        && |Frame(json)| <= arrives && |Frame(c.writeResponse(Plainly(200)))| <= room
    ensures result.Ok? <==> relays && !gaveUp && |Frame(c.writeResponse(Plainly(200)))| <= reaches
    ensures relays ==> hostLeft == Cut(up, arrives - |Frame(c.writeRequest(RequestFor(c, cap)))|)
    ensures result.Ok? ==> clientLeft == Cut(down, reaches - |Frame(c.writeResponse(Plainly(200)))|)
  {
    hide TakeFrame, Frame, Judge, Admitted, Push, Read, Fits, Cut;
    var json := c.writeRequest(RequestFor(c, cap));
    var toHost := new Source(Cut(Frame(json) + up, arrives));
    var toClient := new Sink(room);
    relays := HandleStream(c, host, toHost, toClient, late);
    HostSide(c, host, cap, up, arrives);
    StatusOfRelay(c, host, RequestFor(c, cap));
    FitsIff(room, Frame(c.writeResponse(Plainly(200))));
    hostLeft := toHost.left;
    ghost var read := |json| <= MAX_HEAD_LEN && |Frame(json)| <= arrives;
    ghost var status: Option<Status> :=
      if late then Some(408) else if read then Judge(c, host, RequestFor(c, cap)).status else Some(400);
    var behind := if relays then down else [];
    ClientSide(c, status, room, behind, reaches);
    var reader := new Source(Cut(toClient.sent + behind, reaches));
    if gaveUp {
      result := Err(GaveUp);
    } else {
      result := ReadResponse(c, reader);
    }
    clientLeft := reader.left;
  }

  lemma FitsIff(room: nat, data: Bytes)
    ensures Fits(Pipe([], room), data) <==> |data| <= room
  {
  }

  // What the client makes of the answer `status`, or of silence, cut twice.
  lemma ClientSide(c: Codec, status: Option<Status>, room: nat, behind: Bytes, reaches: nat)
    requires Lawful(c)
    requires status != Some(200) || |Frame(c.writeResponse(Plainly(200)))| > room ==> behind == []
    ensures var reply := if status.Some? then Frame(c.writeResponse(Plainly(status.value))) else [];
            var written := if status.Some? then Push(Pipe([], room), reply) else Pipe([], room);
            var r := Read(c, Cut(written.sent + behind, reaches));
            && (r.Ok? <==> status == Some(200) && |reply| <= room && |reply| <= reaches)
            && (r.Ok? ==> r.value == Cut(behind, reaches - |reply|))
  {
    hide Frame, TakeFrame;
    if status.None? {
      assert Cut([] + behind, reaches) == [];
      SilenceIsNoFrame();
    } else {
      var data := c.writeResponse(Plainly(status.value));
      var reply := Frame(data);
      if |reply| <= room {
        assert Push(Pipe([], room), reply).sent == reply;
        CutFrame(data, behind, reaches, MAX_HEAD_LEN);
        if |reply| <= reaches {
          ReadPlainly(c, status.value, Cut(behind, reaches - |reply|));
        }
      } else {
        var n := if reaches <= room then reaches else room;
        assert Push(Pipe([], room), reply).sent == reply[..room];
        assert Cut(reply[..room] + behind, reaches) == reply[..n];
        TakeFrameCut(data, MAX_HEAD_LEN, reply[..n]);
      }
    }
  }

  lemma SilenceIsNoFrame()
    ensures TakeFrame([], MAX_HEAD_LEN) == Refused
  {
  }

  // What the host reads, however much of the head arrived.
  lemma HostSide(c: Codec, host: Host, cap: Capability, up: Bytes, arrives: nat)
    requires Lawful(c) && |c.writeRequest(RequestFor(c, cap))| < U32_LIMIT
    ensures var json := c.writeRequest(RequestFor(c, cap));
            && TakeFrame(Cut(Frame(json) + up, arrives), MAX_HEAD_LEN) ==
                 (if |Frame(json)| <= arrives && |json| <= MAX_HEAD_LEN
                  then Taken(json, Cut(up, arrives - |Frame(json)|))
                  else Refused)
            && c.readRequest(json) == Some(RequestFor(c, cap))
            && (Judge(c, host, RequestFor(c, cap)).relays <==> Admitted(c, host, cap))
  {
    hide Frame, TakeFrame, Judge, Admitted, Cut;
    var json := c.writeRequest(RequestFor(c, cap));
    JudgeIff(c, host, cap);
    CutFrame(json, up, arrives, MAX_HEAD_LEN);
    if |Frame(json)| <= arrives {
      var rest := Cut(up, arrives - |Frame(json)|);
      if |json| <= MAX_HEAD_LEN {
        TakeFrameWhole(json, rest, MAX_HEAD_LEN);
      } else {
        TakeFrameOver(json, rest, MAX_HEAD_LEN);
      }
    }
  }

  // Of all answers only 200 is read as success, and what is behind it is left.
  lemma ReadPlainly(c: Codec, status: Status, rest: Bytes)
    requires Lawful(c)
    ensures Read(c, Frame(c.writeResponse(Plainly(status))) + rest).Ok? <==> status == 200
    ensures status == 200 ==> Read(c, Frame(c.writeResponse(Plainly(status))) + rest) == Ok(rest)
  {
    TakeFrameWhole(c.writeResponse(Plainly(status)), rest, MAX_HEAD_LEN);
  }

  // What the client reads as success was a 200 of its own version, without headers
  // and body; an answer with another status of 100 to 599 is reported as such, and
  // everything else is a protocol error.
  lemma ReadMeans(c: Codec, input: Bytes)
    ensures var r := Read(c, input); var frame := TakeFrame(input, 1_048_576);
            var head := if frame.Taken? then c.readResponse(frame.data) else None;
            && (r.Ok? <==> head == Some(ResponseHead(3, 200, [], Some(0))))
            && (r.Ok? ==> frame.Taken? && r.value == frame.rest)
            && (forall s: Status :: r == Err(ServiceRejected(s)) <==>
                  head.Some? && head.value.version == 3 && head.value.status == s && 100 <= s <= 599 && s != 200)
            && (r.Err? ==> r.error == Protocol || r.error.ServiceRejected?)
  {
    hide TakeFrame;
  }

  // So a refused client learns the host's status.
  lemma RefusalIsReported(c: Codec, status: Status, rest: Bytes)
    requires Lawful(c) && 100 <= status <= 599 && status != 200
    ensures Read(c, Frame(c.writeResponse(Plainly(status))) + rest) == Err(ServiceRejected(status))
  {
    TakeFrameWhole(c.writeResponse(Plainly(status)), rest, MAX_HEAD_LEN);
  }
}
