/** The server side: which reply a request gets. */
module Skeleton {
  import opened Wrappers
  import opened Bytes
  import SomeIp

  datatype Reply = Reply(code: u8, payload: seq<u8>)

  datatype Config = Config(serviceId: u16, interfaceVersion: u8)

  datatype Stats = Stats(requests: nat, replies: nat, errors: nat)

  /** True when the request reaches the application's handler. */
  predicate Invokes(config: Config, methods: set<u16>, h: SomeIp.Header) {
    h.serviceId == config.serviceId && h.interfaceVersion == config.interfaceVersion && h.methodId in methods
  }

  /** `handled` is what the handler answers, should it be asked: it may depend on anything. */
  function Decide(config: Config, methods: set<u16>, h: SomeIp.Header, handled: Reply): Reply {
    if h.serviceId != config.serviceId then Reply(SomeIp.UNKNOWN_SERVICE, [])
    else if h.interfaceVersion != config.interfaceVersion then Reply(SomeIp.WRONG_INTERFACE_VERSION, [])
    else if h.methodId !in methods then Reply(SomeIp.UNKNOWN_METHOD, [])
    else handled
  }

  /** The return code of the answer: which check failed first, by its code on the wire, or what the
      handler says. */
  function Code(config: Config, methods: set<u16>, h: SomeIp.Header, handled: Reply): (code: u8)
    ensures h.serviceId != config.serviceId ==> code == 0x02
    ensures h.serviceId == config.serviceId && h.interfaceVersion != config.interfaceVersion ==> code == 0x08
    ensures h.serviceId == config.serviceId && h.interfaceVersion == config.interfaceVersion ==>
              code == if h.methodId in methods then handled.code else 0x03
  {
    Decide(config, methods, h, handled).code
  }

  /** The reply echoes every id of the question and changes exactly three fields. */
  function ReplyHeader(config: Config, h: SomeIp.Header, code: u8): SomeIp.Header {
    h.(interfaceVersion := config.interfaceVersion, code := code,
       kind := if code == SomeIp.OK then SomeIp.Response else SomeIp.Error)
  }

  /** The datagram that goes back, if one does. */
  function Answer(config: Config, methods: set<u16>, m: SomeIp.Message, handled: Reply): Option<seq<u8>> {
    if m.header.kind != SomeIp.Request then None
    else
      var reply := Decide(config, methods, m.header, handled);
      SomeIp.Serialize(ReplyHeader(config, m.header, reply.code),
                       if reply.code == SomeIp.OK then reply.payload else [])
  }

  /** `d` answers `m`, byte by byte: ids as in the request, the server's own interface version, type 0x80 with
      the handler's bytes if the code is 0, else type 0x81 with the code and nothing more. */
  predicate IsAnswer(config: Config, methods: set<u16>, m: SomeIp.Message, handled: Reply, d: seq<u8>) {
    var h, code := m.header, Code(config, methods, m.header, handled);
    && |d| >= 16
    && d[0] as int * 0x100 + d[1] == h.serviceId && d[2] as int * 0x100 + d[3] == h.methodId
    && d[8] as int * 0x100 + d[9] == h.clientId && d[10] as int * 0x100 + d[11] == h.sessionId
    && d[12] == 1 && d[13] == config.interfaceVersion
    && d[14] == (if code == 0 then 0x80 else 0x81) && d[15] == code
    && d[16..] == (if code == 0 then handled.payload else [])
    && (code == 0 ==> Invokes(config, methods, h))
  }

  /** The answer is that, and there is one exactly if the request wants one that the length field can count. */
  lemma AnswerOnWire(config: Config, methods: set<u16>, m: SomeIp.Message, handled: Reply)
    ensures Answer(config, methods, m, handled).Some?
            <==> m.header.kind == SomeIp.Request
                 && (Code(config, methods, m.header, handled) != 0 || 8 + |handled.payload| <= 0xFFFF_FFFF)
    ensures Answer(config, methods, m, handled).Some? ==>
              IsAnswer(config, methods, m, handled, Answer(config, methods, m, handled).value)
  {
    hide SomeIp.Serialize;
    var reply := Decide(config, methods, m.header, handled);
    SomeIp.SerializedOnWire(ReplyHeader(config, m.header, reply.code), if reply.code == SomeIp.OK then reply.payload else []);
  }

  class Server {
    const config: Config
    var methods: set<u16>
    var stats: Stats

    constructor (config: Config)
      ensures this.config == config && methods == {} && stats == Stats(0, 0, 0)
    {
      this.config := config;
      methods, stats := {}, Stats(0, 0, 0);
    }

    /** Every request is counted; one that wants an answer is counted again, as a reply or an error. */
    method AnswerRequest(m: SomeIp.Message, handled: Reply) returns (out: Option<seq<u8>>)
      modifies this`stats
      ensures out == Answer(config, methods, m, handled)
      ensures out.Some? ==> IsAnswer(config, methods, m, handled, out.value)
      ensures var asks := m.header.kind == SomeIp.Request;
              var fine := Code(config, methods, m.header, handled) == 0x00;
              && stats.requests == old(stats.requests) + (if asks || m.header.kind == SomeIp.RequestNoReturn then 1 else 0)
              && stats.replies == old(stats.replies) + (if asks && fine then 1 else 0)
              && stats.errors == old(stats.errors) + (if asks && !fine then 1 else 0)
    {
      AnswerOnWire(config, methods, m, handled);
      hide IsAnswer;
      if m.header.kind != SomeIp.Request && m.header.kind != SomeIp.RequestNoReturn {
        return None;
      }
      stats := stats.(requests := stats.requests + 1);
      var reply := Decide(config, methods, m.header, handled);
      if m.header.kind == SomeIp.RequestNoReturn {
        return None;
      }
      var header := m.header.(interfaceVersion := config.interfaceVersion, code := reply.code);
      var payload := reply.payload;
      if reply.code == SomeIp.OK {
        header := header.(kind := SomeIp.Response);
        stats := stats.(replies := stats.replies + 1);
      } else {
        header := header.(kind := SomeIp.Error);
        payload := [];
        stats := stats.(errors := stats.errors + 1);
      }
      var ok, wire := SomeIp.SerializeInto(header, payload);
      out := if ok then Some(wire) else None;
    }
  }

  /** What a client can read off any answer: its own session, and a success only if the handler for
      its very request said so, with the handler's bytes. */
  lemma AnswerReads(config: Config, methods: set<u16>, m: SomeIp.Message, handled: Reply)
    requires Answer(config, methods, m, handled).Some?
    ensures var d := SomeIp.Deserialize(Answer(config, methods, m, handled).value);
            && d.Some? && d.value.header.sessionId == m.header.sessionId
            && d.value.header.interfaceVersion == config.interfaceVersion
            && d.value.header.kind == (if d.value.header.code == 0x00 then SomeIp.Response else SomeIp.Error)
            && d.value.header.code == Code(config, methods, m.header, handled)
            && (d.value.header.kind == SomeIp.Response ==>
                Invokes(config, methods, m.header) && handled == Reply(SomeIp.OK, d.value.payload))
  {
    hide SomeIp.Deserialize;
    var reply := Decide(config, methods, m.header, handled);
    SomeIp.RoundTrip(ReplyHeader(config, m.header, reply.code), if reply.code == SomeIp.OK then reply.payload else []);
  }
}
