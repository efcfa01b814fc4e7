/**
 The responder that compresses non-streaming responses: it holds back the start message and the body
 until it knows whether to compress, to pass through, or to send unchanged.
 */
module GzipResponder {
  import opened Common
  import opened Decimals

  type Bytes = seq<bv8>

  /** Header names are lower case, as ASGI delivers them; the list may repeat a name. */
  datatype Header = Header(name: string, value: string)

  datatype Message =
    | ResponseStart(status: int, headers: seq<Header>)
    | ResponseBody(body: Bytes, more: bool)
    | Extension(kind: string)

  /** The coding, as functions of this module's client: a compressor and its inverse. */
  datatype Coding = Coding(compress: Bytes -> Bytes, decompress: Bytes -> Bytes)

  ghost predicate Lossless(c: Coding) {
    forall b: Bytes :: c.decompress(c.compress(b)) == b
  }

  // ----- Headers

  function Find(headers: seq<Header>, name: string): Option<string> {
    if headers == [] then None
    else if headers[0].name == name then Some(headers[0].value)
    else Find(headers[1..], name)
  }

  function Drop(headers: seq<Header>, name: string): seq<Header> {
    if headers == [] then []
    else if headers[0].name == name then Drop(headers[1..], name)
    else [headers[0]] + Drop(headers[1..], name)
  }

  /** Replaces the first header of the name and drops its repeats, or appends one. */
  function Set(headers: seq<Header>, name: string, value: string): seq<Header> {
    if headers == [] then [Header(name, value)]
    else if headers[0].name == name then [Header(name, value)] + Drop(headers[1..], name)
    else [headers[0]] + Set(headers[1..], name, value)
  }

  lemma {:induction false} DropSpec(headers: seq<Header>, name: string, other: string)
    ensures Find(Drop(headers, name), other) == if other == name then None else Find(headers, other)
  {
    if headers != [] {
      DropSpec(headers[1..], name, other);
      if headers[0].name != name {
        assert ([headers[0]] + Drop(headers[1..], name))[1..] == Drop(headers[1..], name);
      }
    }
  }

  /** Setting a header makes it readable and leaves every other one as it was. */
  lemma {:induction false} SetSpec(headers: seq<Header>, name: string, value: string, other: string)
    ensures Find(Set(headers, name, value), other) == if other == name then Some(value) else Find(headers, other)
  {
    if headers != [] {
      if headers[0].name == name {
        DropSpec(headers[1..], name, other);
        assert ([Header(name, value)] + Drop(headers[1..], name))[1..] == Drop(headers[1..], name);
      } else {
        SetSpec(headers[1..], name, value, other);
        assert ([headers[0]] + Set(headers[1..], name, value))[1..] == Set(headers[1..], name, value);
      }
    }
  }

  function GzipHeaders(headers: seq<Header>, size: nat): seq<Header> {
    var coded := Set(Set(headers, "content-encoding", "gzip"), "content-length", Decimal(size));
    match Find(coded, "vary")
    case None => Set(coded, "vary", "Accept-Encoding")
    case Some(v) => Set(coded, "vary", v + ", Accept-Encoding")
  }

  lemma {:induction false} GzipHeadersSpec(headers: seq<Header>, size: nat)
    ensures var h := GzipHeaders(headers, size);
      && Find(h, "content-encoding") == Some("gzip")
      && Find(h, "content-length") == Some(Decimal(size))
      && Find(h, "vary").Some?
      && forall name :: name != "content-encoding" && name != "content-length" && name != "vary" ==>
           Find(h, name) == Find(headers, name)
  {
    hide Set, Find, Decimal;
    var a := Set(headers, "content-encoding", "gzip");
    var b := Set(a, "content-length", Decimal(size));
    var vary := match Find(b, "vary") case None => "Accept-Encoding" case Some(v) => v + ", Accept-Encoding";
    forall name: string
      ensures Find(GzipHeaders(headers, size), name) ==
              if name == "vary" then Some(vary)
              else if name == "content-length" then Some(Decimal(size))
              else if name == "content-encoding" then Some("gzip")
              else Find(headers, name)
    {
      SetSpec(headers, "content-encoding", "gzip", name);
      SetSpec(a, "content-length", Decimal(size), name);
      SetSpec(b, "vary", vary, name);
    }
  }

  // ----- Content types

  function Lower(c: char): char {
    if 'A' <= c <= 'Z' then c - 'A' + 'a' else c
  }

  function LowerAll(s: string): string {
    seq(|s|, i requires 0 <= i < |s| => Lower(s[i]))
  }

  const SSE_CONTENT_TYPE := "text/event-stream"
  const COMPRESSIBLE_PREFIXES := ["application/json", "application/javascript", "application/xml", "text/"]

  function ContentType(headers: seq<Header>): string {
    LowerAll(match Find(headers, "content-type") case None => "" case Some(v) => v)
  }

  /** What the start message says about the response. */
  datatype Kind = Kind(encoded: bool, eventStream: bool, compressible: bool)

  function KindOf(headers: seq<Header>): Kind {
    Kind(Find(headers, "content-encoding").Some?,
         Contains(ContentType(headers), SSE_CONTENT_TYPE),
         exists p :: p in COMPRESSIBLE_PREFIXES && p <= ContentType(headers))
  }

  predicate Streams(k: Kind) {
    k.eventStream || !k.compressible || k.encoded
  }

  // ----- The responder's steps

  datatype State = State(
    initial: Option<Message>, kind: Kind, chunks: seq<Bytes>,
    passthrough: bool, started: bool, sent: seq<Message>)

  const FRESH := State(None, Kind(false, false, false), [], false, false, [])

  function Join(chunks: seq<Bytes>): Bytes {
    if chunks == [] then [] else Join(chunks[..|chunks| - 1]) + chunks[|chunks| - 1]
  }

  function Flush(s: State): State
    requires s.initial.Some?
  {
    if s.started then s
    else
      var begun := s.(started := true, sent := s.sent + [s.initial.value]);
      if s.chunks == [] then begun
      else begun.(chunks := [], sent := begun.sent + [ResponseBody(Join(s.chunks), true)])
  }

  function SendPlain(s: State, body: Bytes): State
    requires s.initial.Some?
  {
    var begun := if s.started then s else s.(started := true, sent := s.sent + [s.initial.value]);
    begun.(sent := begun.sent + [ResponseBody(body, false)])
  }

  predicate LeftPlain(k: Kind, size: nat, minimumSize: nat) {
    k.encoded || k.eventStream || size < minimumSize
  }

  function Step(c: Coding, minimumSize: nat, s: State, m: Message): State
    requires s.initial.Some? ==> s.initial.value.ResponseStart?
  {
    match m
    case ResponseStart(_, headers) => s.(initial := Some(m), kind := KindOf(headers))
    case Extension(_) => s.(sent := s.sent + [m])
    case ResponseBody(body, more) =>
      if s.initial.None? || s.passthrough then s.(sent := s.sent + [m])
      else if more then
        if Streams(s.kind) then
          var flushed := Flush(s.(passthrough := true));
          flushed.(sent := flushed.sent + [m])
        else s.(chunks := s.chunks + [body])
      else
        var held := s.(chunks := s.chunks + [body]);
        var full := Join(held.chunks);
        if LeftPlain(s.kind, |full|, minimumSize) then SendPlain(held, full)
        else
          var coded := c.compress(full);
          var start := s.initial.value.(headers := GzipHeaders(s.initial.value.headers, |coded|));
          held.(initial := Some(start), started := true, sent := s.sent + [start, ResponseBody(coded, false)])
  }

  // ----- Whole responses

  function Run(c: Coding, minimumSize: nat, messages: seq<Message>): (s: State)
    ensures s.initial.Some? ==> s.initial.value.ResponseStart?
  {
    if messages == [] then FRESH
    else Step(c, minimumSize, Run(c, minimumSize, messages[..|messages| - 1]), messages[|messages| - 1])
  }

  /** One start, then body messages, all but the last announcing more. */
  predicate Conforming(messages: seq<Message>) {
    && |messages| >= 2 && messages[0].ResponseStart?
    && (forall i :: 1 <= i < |messages| ==> messages[i].ResponseBody? && (messages[i].more <==> i < |messages| - 1))
  }

  /** The body bytes of a message sequence, in order. */
  function BodyOf(messages: seq<Message>): Bytes {
    if messages == [] then []
    else
      var last := messages[|messages| - 1];
      BodyOf(messages[..|messages| - 1]) + if last.ResponseBody? then last.body else []
  }

  /** A start and some bodies that all announce more. */
  predicate Opening(messages: seq<Message>) {
    && |messages| >= 1 && messages[0].ResponseStart?
    && (forall i :: 1 <= i < |messages| ==> messages[i].ResponseBody? && messages[i].more)
  }

  /** After the start alone the responder holds it, and knows its kind. */
  lemma {:induction false} AfterStart(c: Coding, minimumSize: nat, start: Message)
    requires start.ResponseStart?
    ensures Run(c, minimumSize, [start]) == FRESH.(initial := Some(start), kind := KindOf(start.headers))
  {
    hide KindOf, GzipHeaders;
    assert [start][..0] == [];
    assert Run(c, minimumSize, []) == FRESH;
  }

  lemma {:induction false} RunOne(c: Coding, minimumSize: nat, messages: seq<Message>, m: Message)
    ensures Run(c, minimumSize, messages + [m]) == Step(c, minimumSize, Run(c, minimumSize, messages), m)
  {
    assert (messages + [m])[..|messages|] == messages;
  }

  /** A body that announces more is forwarded, opens the stream, or is held. */
  lemma {:induction false} StepMore(c: Coding, minimumSize: nat, s: State, body: Bytes)
    requires s.initial.Some? && s.initial.value.ResponseStart? && !s.started == !s.passthrough
    requires !s.started ==> s.sent == []
    requires Streams(s.kind) ==> s.chunks == []
    ensures var m := ResponseBody(body, true);
      Step(c, minimumSize, s, m) ==
        if s.passthrough then s.(sent := s.sent + [m])
        else if Streams(s.kind) then s.(passthrough := true, started := true, sent := [s.initial.value] + [m])
        else s.(chunks := s.chunks + [body])
  {
    hide KindOf, GzipHeaders, Join, LeftPlain, Streams;
  }

  lemma {:induction false} BodyOfAppend(messages: seq<Message>, m: Message)
    ensures BodyOf(messages + [m]) == BodyOf(messages) + if m.ResponseBody? then m.body else []
  {
    assert (messages + [m])[..|messages|] == messages;
  }

  lemma {:induction false} JoinAppend(chunks: seq<Bytes>, chunk: Bytes)
    ensures Join(chunks + [chunk]) == Join(chunks) + chunk
  {
    assert (chunks + [chunk])[..|chunks|] == chunks;
  }

  lemma {:induction false} NoBody(start: Message)
    requires start.ResponseStart?
    ensures BodyOf([start]) == [] && Join([]) == []
  {
    assert [start][..0] == [];
  }

  /** While more is announced, a streamed response has been forwarded as it came and any other is wholly held back. */
  lemma {:induction false} WhileMore(c: Coding, minimumSize: nat, messages: seq<Message>)
    requires Opening(messages)
    ensures var s, k := Run(c, minimumSize, messages), KindOf(messages[0].headers);
      && s.initial == Some(messages[0]) && s.kind == k
      && (if Streams(k) && |messages| > 1 then s.passthrough && s.started && s.chunks == [] && s.sent == messages
          else !s.passthrough && !s.started && s.sent == [] && Join(s.chunks) == BodyOf(messages))
      && (Streams(k) ==> s.chunks == [])
  {
    hide KindOf, Step, Run, Streams, BodyOf, Join;
    if |messages| == 1 {
      assert messages == [messages[0]];
      AfterStart(c, minimumSize, messages[0]);
      NoBody(messages[0]);
    } else {
      var init, last := messages[..|messages| - 1], messages[|messages| - 1];
      assert messages == init + [last];
      assert Opening(init);
      WhileMore(c, minimumSize, init);
      var before := Run(c, minimumSize, init);
      RunOne(c, minimumSize, init, last);
      StepMore(c, minimumSize, before, last.body);
      BodyOfAppend(init, last);
      JoinAppend(before.chunks, last.body);
      if |init| == 1 {
        assert init == [messages[0]];
      }
    }
  }

  /** When the responder compresses: nothing forbids it, and the body was not already being streamed. */
  predicate Compresses(messages: seq<Message>, minimumSize: nat)
    requires Conforming(messages)
  {
    var k := KindOf(messages[0].headers);
    !LeftPlain(k, |BodyOf(messages)|, minimumSize) && (|messages| == 2 || k.compressible)
  }

  /** The three things a conforming response can turn into. */
  lemma {:induction false} Outcome(c: Coding, minimumSize: nat, messages: seq<Message>)
    requires Conforming(messages)
    ensures var out, start, body := Run(c, minimumSize, messages).sent, messages[0], BodyOf(messages);
      var streamed := Streams(KindOf(start.headers)) && |messages| > 2;
      out == if streamed then messages
             else if Compresses(messages, minimumSize) then
               [start.(headers := GzipHeaders(start.headers, |c.compress(body)|)),
                ResponseBody(c.compress(body), false)]
             else [start, ResponseBody(body, false)]
  {
    hide KindOf, GzipHeaders, Run, BodyOf, Join;
    var init, last := messages[..|messages| - 1], messages[|messages| - 1];
    assert messages == init + [last];
    WhileMore(c, minimumSize, init);
    RunOne(c, minimumSize, init, last);
    BodyOfAppend(init, last);
    JoinAppend(Run(c, minimumSize, init).chunks, last.body);
  }

  /**
   What is sent is again one start followed by bodies of which only the last is final; the bodies sent together
   are the body given, or its gzip coding, and which of the two follows exactly from the content type, an existing
   coding, the size and the number of body messages. A coded body is announced by Content-Encoding and by a
   Content-Length that reads as the number of bytes sent, and all other headers but Vary stay; otherwise the start
   is sent unchanged. An event stream of more than one body message is forwarded message by message.
   */
  ghost predicate Conserves(c: Coding, minimumSize: nat, messages: seq<Message>, out: seq<Message>)
    requires Conforming(messages)
  {
    && Conforming(out)
    && out[0].status == messages[0].status
    && (if Compresses(messages, minimumSize) then
          && BodyOf(out) == c.compress(BodyOf(messages)) && c.decompress(BodyOf(out)) == BodyOf(messages)
          && Find(out[0].headers, "content-encoding") == Some("gzip")
          && Find(out[0].headers, "content-length").Some?
          && ParseDecimal(Find(out[0].headers, "content-length").value) == |BodyOf(out)|
          && KeepsOtherHeaders(messages[0].headers, out[0].headers)
        else
          BodyOf(out) == BodyOf(messages) && out[0] == messages[0])
    && (KindOf(messages[0].headers).eventStream && |messages| > 2 ==> out == messages)
  }

  /** Only the three headers of the coding may differ. */
  ghost predicate KeepsOtherHeaders(before: seq<Header>, after: seq<Header>) {
    forall name :: name != "content-encoding" && name != "content-length" && name != "vary" ==>
      Find(after, name) == Find(before, name)
  }

  /** The response is conserved. */
  lemma {:induction false} ResponseConserved(c: Coding, minimumSize: nat, messages: seq<Message>)
    requires Conforming(messages) && Lossless(c)
    ensures Conserves(c, minimumSize, messages, Run(c, minimumSize, messages).sent)
  {
    hide KindOf, GzipHeaders, Find, LeftPlain, Run, BodyOf, Streams, Compresses, Decimal, ParseDecimal;
    var out, start, body := Run(c, minimumSize, messages).sent, messages[0], BodyOf(messages);
    Outcome(c, minimumSize, messages);
    EventStreamsStream(KindOf(start.headers));
    if Streams(KindOf(start.headers)) && |messages| > 2 {
      StreamedIsNotCompressed(messages, minimumSize);
    } else {
      assert out == [out[0], out[1]];
      BodyOfTwo(out[0], out[1]);
      if Compresses(messages, minimumSize) {
        GzipHeadersSpec(start.headers, |c.compress(body)|);
        DecimalReadsBack(|c.compress(body)|);
      }
    }
  }

  lemma {:induction false} EventStreamsStream(k: Kind)
    ensures k.eventStream ==> Streams(k)
  {
  }

  lemma {:induction false} StreamedIsNotCompressed(messages: seq<Message>, minimumSize: nat)
    requires Conforming(messages) && Streams(KindOf(messages[0].headers)) && |messages| > 2
    ensures !Compresses(messages, minimumSize)
  {
  }

  lemma {:induction false} BodyOfTwo(start: Message, body: Message)
    requires start.ResponseStart? && body.ResponseBody?
    ensures BodyOf([start, body]) == body.body
  {
    assert [start, body][..1] == [start] && [start][..0] == [];
    assert BodyOf([]) == [] && BodyOf([start]) == [] + [];
    assert [] + body.body == body.body;
  }

  /** An event stream of more than one body message is forwarded message by message. */
  lemma {:induction false} EventStreamForwarded(c: Coding, minimumSize: nat, messages: seq<Message>)
    requires Conforming(messages) && |messages| > 2 && KindOf(messages[0].headers).eventStream
    ensures Run(c, minimumSize, messages).sent == messages
    ensures forall n :: 2 <= n < |messages| ==> Run(c, minimumSize, messages[..n]).sent == messages[..n]
  {
    hide KindOf;
    Outcome(c, minimumSize, messages);
    forall n | 2 <= n < |messages| ensures Run(c, minimumSize, messages[..n]).sent == messages[..n] {
      WhileMore(c, minimumSize, messages[..n]);
    }
  }

  /** A content type outside the compressible list is compressed all the same when there is a single body message. */
  lemma {:induction false} ImageIsCompressed(c: Coding, minimumSize: nat, body: Bytes)
    requires |body| >= minimumSize
    ensures var start := ResponseStart(200, [Header("content-type", "image/png")]);
      var out := Run(c, minimumSize, [start, ResponseBody(body, false)]).sent;
      && !KindOf(start.headers).compressible
      && |out| == 2 && out[0].ResponseStart? && out[1] == ResponseBody(c.compress(body), false)
      && Find(out[0].headers, "content-encoding") == Some("gzip")
  {
    hide KindOf, GzipHeaders, Run;
    var start := ResponseStart(200, [Header("content-type", "image/png")]);
    var messages := [start, ResponseBody(body, false)];
    ImageKind();
    BodyOfTwo(start, messages[1]);
    Outcome(c, minimumSize, messages);
    GzipHeadersSpec(start.headers, |c.compress(body)|);
  }

  lemma {:induction false} ImageKind()
    ensures KindOf([Header("content-type", "image/png")]) == Kind(false, false, false)
  {
    var headers := [Header("content-type", "image/png")];
    assert Find(headers, "content-type") == Some("image/png");
    assert headers[1..] == [];
    assert Find(headers, "content-encoding") == None;
    var text := ContentType(headers);
    assert |text| == 9 && text[0] == 'i';
    forall p | p in COMPRESSIBLE_PREFIXES ensures !(p <= text) {
      assert p[0] == 'a' || p[0] == 't';
    }
  }

  // ----- Other messages

  /** The messages without the extensions, and the extensions, each in order. */
  function Bare(messages: seq<Message>): seq<Message> {
    if messages == [] then []
    else
      var last := messages[|messages| - 1];
      Bare(messages[..|messages| - 1]) + if last.Extension? then [] else [last]
  }

  function Extensions(messages: seq<Message>): seq<Message> {
    if messages == [] then []
    else
      var last := messages[|messages| - 1];
      Extensions(messages[..|messages| - 1]) + if last.Extension? then [last] else []
  }

  lemma {:induction false} ApartAppend(xs: seq<Message>, ys: seq<Message>)
    ensures Bare(xs + ys) == Bare(xs) + Bare(ys) && Extensions(xs + ys) == Extensions(xs) + Extensions(ys)
  {
    if ys == [] {
      assert xs + ys == xs;
    } else {
      assert (xs + ys)[..|xs + ys| - 1] == xs + ys[..|ys| - 1];
      ApartAppend(xs, ys[..|ys| - 1]);
    }
  }

  lemma {:induction false} NoExtension(messages: seq<Message>)
    requires forall m :: m in messages ==> !m.Extension?
    ensures Bare(messages) == messages && Extensions(messages) == []
  {
    if messages != [] {
      var init := messages[..|messages| - 1];
      assert messages == init + [messages[|messages| - 1]];
      NoExtension(init);
    }
  }

  /** What a step adds to the messages sent does not depend on those already sent. */
  lemma {:induction false} StepAdds(c: Coding, minimumSize: nat, s: State, m: Message)
    requires s.initial.Some? ==> s.initial.value.ResponseStart?
    ensures var alone := Step(c, minimumSize, s.(sent := []), m);
      && Step(c, minimumSize, s, m) == alone.(sent := s.sent + alone.sent)
      && (!m.Extension? ==> forall x :: x in alone.sent ==> !x.Extension?)
  {
    hide KindOf, GzipHeaders, Join, LeftPlain;
  }

  /** The two states agree, but for the extensions the first has sent. */
  predicate AgreesBare(s: State, bare: State, extensions: seq<Message>) {
    s.(sent := []) == bare.(sent := []) && Bare(s.sent) == bare.sent && Extensions(s.sent) == extensions
  }

  lemma {:induction false} BareStepAgrees(c: Coding, minimumSize: nat, s: State, bare: State,
                                          extensions: seq<Message>, m: Message)
    requires s.initial.Some? ==> s.initial.value.ResponseStart?
    requires AgreesBare(s, bare, extensions) && !m.Extension?
    ensures AgreesBare(Step(c, minimumSize, s, m), Step(c, minimumSize, bare, m), extensions)
  {
    hide Step, Bare, Extensions;
    StepAdds(c, minimumSize, s, m);
    StepAdds(c, minimumSize, bare, m);
    var added := Step(c, minimumSize, s.(sent := []), m).sent;
    ApartAppend(s.sent, added);
    NoExtension(added);
    assert extensions + [] == extensions;
  }

  lemma {:induction false} ExtensionStepAgrees(c: Coding, minimumSize: nat, s: State, bare: State,
                                               extensions: seq<Message>, m: Message)
    requires s.initial.Some? ==> s.initial.value.ResponseStart?
    requires AgreesBare(s, bare, extensions) && m.Extension?
    ensures AgreesBare(Step(c, minimumSize, s, m), bare, extensions + [m])
  {
    hide Step, Bare, Extensions;
    ExtensionStep(c, minimumSize, s, m);
    ApartAppend(s.sent, [m]);
    OneApart(m);
    assert bare.sent + [] == bare.sent;
  }

  /** Extensions neither get lost nor change anything else that is sent, whatever the sequence. */
  lemma {:induction false} ExtensionsApart(c: Coding, minimumSize: nat, messages: seq<Message>)
    ensures AgreesBare(Run(c, minimumSize, messages), Run(c, minimumSize, Bare(messages)), Extensions(messages))
  {
    hide Step, AgreesBare;
    if messages == [] {
      FreshAgrees();
    } else {
      var init, last := messages[..|messages| - 1], messages[|messages| - 1];
      ExtensionsApart(c, minimumSize, init);
      var s, bare := Run(c, minimumSize, init), Run(c, minimumSize, Bare(init));
      if last.Extension? {
        ExtensionStepAgrees(c, minimumSize, s, bare, Extensions(init), last);
        assert Bare(init) + [] == Bare(init);
      } else {
        BareStepAgrees(c, minimumSize, s, bare, Extensions(init), last);
        assert (Bare(init) + [last])[..|Bare(init)|] == Bare(init);
        assert Extensions(init) + [] == Extensions(init);
      }
    }
  }

  lemma {:induction false} FreshAgrees()
    ensures AgreesBare(FRESH, FRESH, [])
  {
  }

  lemma {:induction false} ExtensionStep(c: Coding, minimumSize: nat, s: State, m: Message)
    requires m.Extension? && (s.initial.Some? ==> s.initial.value.ResponseStart?)
    ensures Step(c, minimumSize, s, m) == s.(sent := s.sent + [m])
    ensures Step(c, minimumSize, s.(sent := []), m).sent == [m]
  {
  }

  lemma {:induction false} OneApart(m: Message)
    requires m.Extension?
    ensures Bare([m]) == [] && Extensions([m]) == [m]
  {
    assert [m][..0] == [];
  }

  /** With extensions anywhere, a conforming response is conserved, and they are all forwarded in order. */
  lemma {:induction false} ConservedWithExtensions(c: Coding, minimumSize: nat, messages: seq<Message>)
    requires Conforming(Bare(messages)) && Lossless(c)
    ensures var out := Run(c, minimumSize, messages).sent;
      Conserves(c, minimumSize, Bare(messages), Bare(out)) && Extensions(out) == Extensions(messages)
  {
    hide Conserves, Conforming;
    ExtensionsApart(c, minimumSize, messages);
    ResponseConserved(c, minimumSize, Bare(messages));
  }

  /** One start, then bodies and extensions in any order. */
  predicate Mixed(messages: seq<Message>) {
    && |messages| >= 1 && messages[0].ResponseStart?
    && (forall i :: 1 <= i < |messages| ==> !messages[i].ResponseStart?)
  }

  predicate HasStart(messages: seq<Message>) {
    exists m :: m in messages && m.ResponseStart?
  }

  predicate Releases(k: Kind, m: Message) {
    m.ResponseBody? && (!m.more || Streams(k))
  }

  /** Some body has made the responder let go of the start: the final one, or any one of a streamed response. */
  predicate Released(messages: seq<Message>)
    requires Mixed(messages)
  {
    exists m :: m in messages && Releases(KindOf(messages[0].headers), m)
  }

  lemma {:induction false} StartSentExactly(c: Coding, minimumSize: nat, messages: seq<Message>)
    requires Mixed(messages)
    ensures var s := Run(c, minimumSize, messages);
      && (HasStart(s.sent) <==> Released(messages)) && (s.started <==> Released(messages))
      && s.initial.Some? && s.kind == KindOf(messages[0].headers) && (s.passthrough ==> s.started)
  {
    hide KindOf, Released, HasStart, Step, Run, Releases;
    if |messages| == 1 {
      assert messages == [messages[0]];
      AfterStart(c, minimumSize, messages[0]);
      NothingReleased(messages[0]);
    } else {
      var init, last := messages[..|messages| - 1], messages[|messages| - 1];
      assert messages == init + [last];
      StartSentExactly(c, minimumSize, init);
      ReleasedAppend(init, last);
      RunOne(c, minimumSize, init, last);
      StartStep(c, minimumSize, Run(c, minimumSize, init), last);
    }
  }

  lemma {:induction false} NothingReleased(start: Message)
    requires start.ResponseStart?
    ensures !Released([start]) && !HasStart([])
  {
  }

  lemma {:induction false} ReleasedAppend(messages: seq<Message>, m: Message)
    requires Mixed(messages) && !m.ResponseStart?
    ensures Mixed(messages + [m])
    ensures Released(messages + [m]) <==> Released(messages) || Releases(KindOf(messages[0].headers), m)
  {
    hide KindOf;
    assert m in messages + [m];
    if Released(messages) {
      var x :| x in messages && Releases(KindOf(messages[0].headers), x);
      assert x in messages + [m];
    }
  }

  lemma {:induction false} StartStep(c: Coding, minimumSize: nat, s: State, m: Message)
    requires s.initial.Some? && s.initial.value.ResponseStart? && !m.ResponseStart?
    requires (s.passthrough ==> s.started) && (HasStart(s.sent) <==> s.started)
    ensures var t := Step(c, minimumSize, s, m);
      && t.initial.Some? && t.kind == s.kind && (t.passthrough ==> t.started)
      && (t.started <==> s.started || Releases(s.kind, m)) && (HasStart(t.sent) <==> t.started)
  {
    hide KindOf, GzipHeaders, Join, LeftPlain, Streams;
    var t := Step(c, minimumSize, s, m);
    StepAdds(c, minimumSize, s, m);
    forall x | x in s.sent ensures x in t.sent {
    }
    if t.started && !s.started {
      assert t.initial.value in t.sent;
    }
  }

  lemma {:induction false} SentGrows(c: Coding, minimumSize: nat, messages: seq<Message>, n: nat)
    requires n <= |messages|
    ensures Run(c, minimumSize, messages[..n]).sent <= Run(c, minimumSize, messages).sent
  {
    hide Step;
    if n < |messages| {
      var init, last := messages[..|messages| - 1], messages[|messages| - 1];
      assert init[..n] == messages[..n];
      SentGrows(c, minimumSize, init, n);
      StepAdds(c, minimumSize, Run(c, minimumSize, init), last);
    } else {
      assert messages[..n] == messages;
    }
  }

  /**
   Where an extension ends up: at once behind everything sent so far. It overtakes the start, which came before it,
   exactly when no body has released the start yet.
   */
  lemma {:induction false} ExtensionOrder(c: Coding, minimumSize: nat, messages: seq<Message>, i: nat)
    requires Mixed(messages) && 1 <= i < |messages| && messages[i].Extension?
    ensures var sent := Run(c, minimumSize, messages[..i]).sent;
      && sent + [messages[i]] <= Run(c, minimumSize, messages).sent
      && (HasStart(sent) <==> Released(messages[..i]))
  {
    hide Step, Released;
    var before := messages[..i];
    assert messages[..i + 1][..i] == before;
    SentGrows(c, minimumSize, messages, i + 1);
    StartSentExactly(c, minimumSize, before);
    ExtensionStep(c, minimumSize, Run(c, minimumSize, before), messages[i]);
  }

  /** An extension before the body overtakes the start; one that takes the place of the body leaves the start unsent. */
  lemma {:induction false} ExtensionOvertakes(c: Coding, minimumSize: nat, start: Message, kind: string, body: Bytes)
    requires start.ResponseStart?
    ensures var out := Run(c, minimumSize, [start, Extension(kind), ResponseBody(body, false)]).sent;
      |out| == 3 && out[0] == Extension(kind) && out[1].ResponseStart? && out[2].ResponseBody?
    ensures Run(c, minimumSize, [start, Extension(kind)]).sent == [Extension(kind)]
  {
    hide KindOf, GzipHeaders, LeftPlain, Join, Run;
    var two, last := [start, Extension(kind)], ResponseBody(body, false);
    assert two == [start] + [Extension(kind)] && [start, Extension(kind), last] == two + [last];
    AfterStart(c, minimumSize, start);
    RunOne(c, minimumSize, [start], Extension(kind));
    RunOne(c, minimumSize, two, last);
  }

  // ----- The responder

  class Responder {
    const minimumSize: nat
    const coding: Coding
    var initial: Option<Message>
    var kind: Kind
    var chunks: seq<Bytes>
    var passthrough: bool
    var started: bool
    var sent: seq<Message>

    ghost predicate Valid()
      reads this
    {
      initial.Some? ==> initial.value.ResponseStart?
    }

    ghost function View(): State
      reads this
    {
      State(initial, kind, chunks, passthrough, started, sent)
    }

    constructor (coding: Coding, minimumSize: nat)
      ensures Valid() && View() == FRESH && this.coding == coding && this.minimumSize == minimumSize
    {
      this.coding, this.minimumSize := coding, minimumSize;
      initial, kind, chunks := None, Kind(false, false, false), [];
      passthrough, started, sent := false, false, [];
    }

    method FlushPassthrough()
      requires Valid() && initial.Some?
      modifies this
      ensures Valid() && View() == Flush(old(View()))
    {
      if started {
        return;
      }
      sent := sent + [initial.value];
      started := true;
      if chunks != [] {
        sent := sent + [ResponseBody(Join(chunks), true)];
        chunks := [];
      }
    }

    method SendUncompressed(body: Bytes)
      requires Valid() && initial.Some?
      modifies this
      ensures Valid() && View() == SendPlain(old(View()), body)
    {
      if !started {
        sent := sent + [initial.value];
        started := true;
      }
      sent := sent + [ResponseBody(body, false)];
    }

    method SendWithOptionalGzip(m: Message)
      requires Valid()
      modifies this
      ensures Valid() && View() == Step(coding, minimumSize, old(View()), m)
    {
      match m {
        case ResponseStart(_, headers) =>
          initial := Some(m);
          kind := KindOf(headers);
        case Extension(_) =>
          sent := sent + [m];
        case ResponseBody(body, more) =>
          if initial.None? || passthrough {
            sent := sent + [m];
            return;
          }
          if more {
            if kind.eventStream || !kind.compressible || kind.encoded {
              passthrough := true;
              FlushPassthrough();
              sent := sent + [m];
              return;
            }
            chunks := chunks + [body];
            return;
          }
          chunks := chunks + [body];
          var full := Join(chunks);
          if kind.encoded || kind.eventStream || |full| < minimumSize {
            SendUncompressed(full);
            return;
          }
          var coded := coding.compress(full);
          var start := initial.value.(headers := GzipHeaders(initial.value.headers, |coded|));
          initial := Some(start);
          sent := sent + [start];
          sent := sent + [ResponseBody(coded, false)];
          started := true;
          assert old(sent) + [start, ResponseBody(coded, false)] == old(sent) + [start] + [ResponseBody(coded, false)];
      }
    }
  }

  /** A whole response through a fresh responder. */
  method Respond(coding: Coding, minimumSize: nat, messages: seq<Message>) returns (sent: seq<Message>)
    ensures sent == Run(coding, minimumSize, messages).sent
    ensures Conforming(messages) && Lossless(coding) ==> Conserves(coding, minimumSize, messages, sent)
    ensures Conforming(Bare(messages)) && Lossless(coding) ==>
              Conserves(coding, minimumSize, Bare(messages), Bare(sent)) && Extensions(sent) == Extensions(messages)
  {
    hide Step, Conserves, Bare, Extensions;
    var responder := new Responder(coding, minimumSize);
    for i := 0 to |messages|
      invariant fresh(responder) && responder.Valid()
      invariant responder.coding == coding && responder.minimumSize == minimumSize
      invariant responder.View() == Run(coding, minimumSize, messages[..i])
    {
      assert messages[..i + 1][..i] == messages[..i];
      responder.SendWithOptionalGzip(messages[i]);
    }
    assert messages[..|messages|] == messages;
    sent := responder.sent;
    if Conforming(messages) && Lossless(coding) {
      ResponseConserved(coding, minimumSize, messages);
    }
    if Conforming(Bare(messages)) && Lossless(coding) {
      ConservedWithExtensions(coding, minimumSize, messages);
    }
  }
}
