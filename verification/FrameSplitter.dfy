/** The incremental splitter of the fleet stream: event chunks end at a blank line. */
module FrameSplitter {
  import opened Common

  const SEPARATOR := "\n\n"

  predicate SeparatorAt(s: string, i: nat) {
    i + 2 <= |s| && s[i] == '\n' && s[i + 1] == '\n'
  }

  /** The first position of the separator, or the length of the text when there is none. */
  function IndexOf(s: string): (i: nat)
    ensures i <= |s|
    ensures i < |s| ==> SeparatorAt(s, i)
    ensures forall j: nat :: j < i ==> !SeparatorAt(s, j)
  {
    if s == "" then 0
    else if SeparatorAt(s, 0) then 0
    else
      var i := IndexOf(s[1..]);
      assert forall j: nat :: 0 < j < i + 1 ==> (SeparatorAt(s, j) <==> SeparatorAt(s[1..], j - 1));
      i + 1
  }

  predicate HasSeparator(s: string) {
    IndexOf(s) < |s|
  }

  lemma {:induction false} IndexIsFirst(s: string, i: nat)
    requires SeparatorAt(s, i) && forall j: nat :: j < i ==> !SeparatorAt(s, j)
    ensures IndexOf(s) == i
  {
  }

  // ----- Splitting a whole text

  datatype Split = Split(chunks: seq<string>, rest: string)

  /** The raw chunks in front of each separator, and what follows the last one. */
  function SplitAll(s: string): Split
    decreases |s|
  {
    var i := IndexOf(s);
    if i == |s| then Split([], s)
    else
      var tail := SplitAll(s[i + 2..]);
      Split([s[..i]] + tail.chunks, tail.rest)
  }

  /** What is left over never contains a separator. */
  lemma {:induction false} RestHasNoSeparator(s: string)
    ensures !HasSeparator(SplitAll(s).rest)
    decreases |s|
  {
    if HasSeparator(s) {
      RestHasNoSeparator(s[IndexOf(s) + 2..]);
    }
  }

  lemma {:induction false} SplitStep(s: string)
    ensures var i := IndexOf(s);
      SplitAll(s) == if i == |s| then Split([], s)
                     else Split([s[..i]] + SplitAll(s[i + 2..]).chunks, SplitAll(s[i + 2..]).rest)
  {
  }

  lemma {:induction false} IndexOfAppend(a: string, b: string)
    requires HasSeparator(a)
    ensures IndexOf(a + b) == IndexOf(a)
    ensures (a + b)[..IndexOf(a)] == a[..IndexOf(a)] && (a + b)[IndexOf(a) + 2..] == a[IndexOf(a) + 2..] + b
  {
    hide IndexOf;
    var i := IndexOf(a);
    forall j: nat | j < i ensures !SeparatorAt(a + b, j) {
      assert SeparatorAt(a + b, j) ==> SeparatorAt(a, j);
    }
    IndexIsFirst(a + b, i);
  }

  lemma {:induction false} Associate<T>(x: seq<T>, y: seq<T>, z: seq<T>)
    ensures x + (y + z) == (x + y) + z
  {
  }

  /**
   Splitting does not depend on where the text is cut: splitting the first part, and then its leftover
   followed by the second part, yields the chunks and the leftover of the whole.
   */
  lemma {:induction false} SplitAppend(a: string, b: string)
    ensures var first, whole := SplitAll(a), SplitAll(a + b);
      var second := SplitAll(first.rest + b);
      whole == Split(first.chunks + second.chunks, second.rest)
    decreases |a|
  {
    hide SplitAll, IndexOf;
    var i := IndexOf(a);
    SplitStep(a);
    if i == |a| {
      assert [] + SplitAll(a + b).chunks == SplitAll(a + b).chunks;
    } else {
      IndexOfAppend(a, b);
      SplitStep(a + b);
      var tail := a[i + 2..];
      SplitAppend(tail, b);
      Associate([a[..i]], SplitAll(tail).chunks, SplitAll(SplitAll(tail).rest + b).chunks);
    }
  }

  /** The chunks, each followed by the separator. */
  function Join(chunks: seq<string>): string {
    if chunks == [] then "" else chunks[0] + SEPARATOR + Join(chunks[1..])
  }

  lemma {:induction false} JoinCons(chunk: string, chunks: seq<string>)
    ensures Join([chunk] + chunks) == chunk + (SEPARATOR + Join(chunks))
  {
    assert ([chunk] + chunks)[1..] == chunks;
  }

  /** Nothing of the text is lost. */
  lemma {:induction false} SplitLosesNothing(s: string)
    ensures Join(SplitAll(s).chunks) + SplitAll(s).rest == s
    decreases |s|
  {
    hide SplitAll, IndexOf, Join;
    var i := IndexOf(s);
    SplitStep(s);
    if i == |s| {
      NothingJoined();
      assert "" + s == s;
    } else {
      var tail := SplitAll(s[i + 2..]);
      SplitLosesNothing(s[i + 2..]);
      JoinCons(s[..i], tail.chunks);
      Associate(s[..i], SEPARATOR + Join(tail.chunks), tail.rest);
      Associate(SEPARATOR, Join(tail.chunks), tail.rest);
      assert s == s[..i] + (SEPARATOR + s[i + 2..]);
    }
  }

  lemma {:induction false} NothingJoined()
    ensures Join([]) == ""
  {
  }

  /** A chunk that can be told apart: no separator inside, and not ending in a newline. */
  predicate Framable(chunk: string) {
    !HasSeparator(chunk) && (chunk == "" || chunk[|chunk| - 1] != '\n')
  }

  /** Splitting undoes joining. */
  lemma {:induction false} SplitJoin(chunks: seq<string>, rest: string)
    requires forall c :: c in chunks ==> Framable(c)
    requires !HasSeparator(rest)
    ensures SplitAll(Join(chunks) + rest) == Split(chunks, rest)
  {
    hide SplitAll, IndexOf, Join, Framable;
    NothingJoined();
    if chunks == [] {
      assert "" + rest == rest;
      SplitStep(rest);
    } else {
      var c, tail := chunks[0], Join(chunks[1..]) + rest;
      assert [c] + chunks[1..] == chunks;
      JoinCons(c, chunks[1..]);
      Associate(c, SEPARATOR + Join(chunks[1..]), rest);
      Associate(SEPARATOR, Join(chunks[1..]), rest);
      FirstFrame(c, tail);
      SplitStep(c + (SEPARATOR + tail));
      SplitJoin(chunks[1..], rest);
    }
  }

  lemma {:induction false} FirstFrame(c: string, tail: string)
    requires Framable(c)
    ensures var s := c + (SEPARATOR + tail); IndexOf(s) == |c| && s[..|c|] == c && s[|c| + 2..] == tail
  {
    var s := c + (SEPARATOR + tail);
    forall j: nat | j < |c| ensures !SeparatorAt(s, j) {
      assert s[j] == c[j];
      if j + 1 < |c| {
        assert SeparatorAt(s, j) ==> SeparatorAt(c, j);
        SeparatorFound(c, j);
      }
    }
    assert s[|c|] == '\n' && s[|c| + 1] == '\n';
    IndexIsFirst(s, |c|);
  }

  lemma {:induction false} SeparatorFound(s: string, j: nat)
    ensures SeparatorAt(s, j) ==> HasSeparator(s)
  {
  }

  // ----- Trimming and delivery

  /** White space and line terminators, as String.prototype.trim strips them. */
  predicate IsSpace(c: char) {
    var u := c as int;
    (9 <= u <= 13) || u == 32 || u == 0xA0 || u == 0x1680 || (0x2000 <= u <= 0x200A)
    || u == 0x2028 || u == 0x2029 || u == 0x202F || u == 0x205F || u == 0x3000 || u == 0xFEFF
  }

  function TrimStart(s: string): string {
    if s != "" && IsSpace(s[0]) then TrimStart(s[1..]) else s
  }

  function TrimEnd(s: string): string {
    if s != "" && IsSpace(s[|s| - 1]) then TrimEnd(s[..|s| - 1]) else s
  }

  function Trim(s: string): string {
    TrimEnd(TrimStart(s))
  }

  /** The payloads handed on for raw chunks: each is trimmed, and skipped when empty or not an event. */
  function Delivered<E>(parse: string -> Option<E>, chunks: seq<string>): seq<E> {
    if chunks == [] then []
    else
      var init, chunk := Delivered(parse, chunks[..|chunks| - 1]), Trim(chunks[|chunks| - 1]);
      if chunk == "" then init
      else match parse(chunk)
        case None => init
        case Some(e) => init + [e]
  }

  lemma {:induction false} DeliveredOne<E>(parse: string -> Option<E>, chunks: seq<string>, raw: string)
    ensures Delivered(parse, chunks + [raw]) ==
            Delivered(parse, chunks)
            + if Trim(raw) != "" && parse(Trim(raw)).Some? then [parse(Trim(raw)).value] else []
  {
    assert (chunks + [raw])[..|chunks|] == chunks;
  }

  lemma {:induction false} DeliveredNothing<E>(parse: string -> Option<E>)
    ensures Delivered(parse, []) == []
  {
  }

  lemma {:induction false} DeliveredAppend<E>(parse: string -> Option<E>, xs: seq<string>, ys: seq<string>)
    ensures Delivered(parse, xs + ys) == Delivered(parse, xs) + Delivered(parse, ys)
  {
    if ys == [] {
      assert xs + ys == xs;
    } else {
      assert (xs + ys)[..|xs + ys| - 1] == xs + ys[..|ys| - 1];
      DeliveredAppend(parse, xs, ys[..|ys| - 1]);
    }
  }

  /** The buffer of one connection and the events it has handed on. */
  class FrameReader<E> {
    var buffer: string
    var events: seq<E>
    const parse: string -> Option<E>

    constructor (parse: string -> Option<E>)
      ensures buffer == "" && events == [] && this.parse == parse
    {
      this.parse := parse;
      buffer, events := "", [];
    }

    /** Takes one decoded chunk, hands on every complete event, and keeps the rest. */
    method OnChunk(text: string)
      modifies this
      ensures buffer == SplitAll(old(buffer) + text).rest
      ensures events == old(events) + Delivered(parse, SplitAll(old(buffer) + text).chunks)
      ensures !HasSeparator(buffer)
    {
      hide SplitAll, IndexOf, IsSpace, Delivered;
      ghost var whole := SplitAll(buffer + text);
      ghost var done: seq<string> := [];
      DeliveredNothing(parse);
      buffer := buffer + text;
      var separatorIndex := IndexOf(buffer);
      while separatorIndex < |buffer|
        invariant separatorIndex == IndexOf(buffer)
        invariant whole == Split(done + SplitAll(buffer).chunks, SplitAll(buffer).rest)
        invariant events == old(events) + Delivered(parse, done)
        decreases |buffer|
      {
        var raw := buffer[..separatorIndex];
        var chunk := Trim(raw);
        SplitStep(buffer);
        Associate(done, [raw], SplitAll(buffer[separatorIndex + 2..]).chunks);
        DeliveredOne(parse, done, raw);
        buffer := buffer[separatorIndex + 2..];
        if chunk != "" {
          var payload := parse(chunk);
          if payload.Some? {
            events := events + [payload.value];
          }
        }
        done := done + [raw];
        separatorIndex := IndexOf(buffer);
      }
      SplitStep(buffer);
      assert done + [] == done;
    }
  }

  // ----- Independence of chunking

  function Concat(texts: seq<string>): string {
    if texts == [] then "" else Concat(texts[..|texts| - 1]) + texts[|texts| - 1]
  }

  /** Feeding the texts one by one: the raw chunks seen and the leftover. */
  function Feed(texts: seq<string>): Split {
    if texts == [] then Split([], "")
    else
      var before := Feed(texts[..|texts| - 1]);
      var now := SplitAll(before.rest + texts[|texts| - 1]);
      Split(before.chunks + now.chunks, now.rest)
  }

  /** However the decoded stream is cut, feeding the pieces is splitting their concatenation at once. */
  lemma {:induction false} FeedIsOneShot(texts: seq<string>)
    ensures Feed(texts) == SplitAll(Concat(texts))
  {
    if texts != [] {
      FeedIsOneShot(texts[..|texts| - 1]);
      SplitAppend(Concat(texts[..|texts| - 1]), texts[|texts| - 1]);
    }
  }

  /** Two ways of cutting the same stream hand on the same events. */
  lemma {:induction false} ChunkingIrrelevant<E>(parse: string -> Option<E>, texts: seq<string>, others: seq<string>)
    requires Concat(texts) == Concat(others)
    ensures Delivered(parse, Feed(texts).chunks) == Delivered(parse, Feed(others).chunks)
    ensures Feed(texts).rest == Feed(others).rest && !HasSeparator(Feed(texts).rest)
  {
    FeedIsOneShot(texts);
    FeedIsOneShot(others);
    RestHasNoSeparator(Concat(texts));
  }

  /** A connection: chunks arrive until the stream ends. */
  method ReadStream<E>(parse: string -> Option<E>, texts: seq<string>) returns (reader: FrameReader<E>)
    ensures fresh(reader) && reader.parse == parse
    ensures reader.events == Delivered(parse, SplitAll(Concat(texts)).chunks)
    ensures reader.buffer == SplitAll(Concat(texts)).rest
  {
    reader := new FrameReader(parse);
    for i := 0 to |texts|
      invariant fresh(reader) && reader.parse == parse
      invariant reader.events == Delivered(parse, Feed(texts[..i]).chunks)
      invariant reader.buffer == Feed(texts[..i]).rest
    {
      assert texts[..i + 1][..i] == texts[..i];
      DeliveredAppend(parse, Feed(texts[..i]).chunks, SplitAll(reader.buffer + texts[i]).chunks);
      reader.OnChunk(texts[i]);
    }
    assert texts[..|texts|] == texts;
    FeedIsOneShot(texts);
  }
}
