/** The service layer (internal/service): the tag-counting extractor
    parseMetaData, the per-site pipeline fetchSite, the error fold of Fetch and
    the read path GetMetaDataForSites.

    The collaborators of internal/service/service.go are oracles. What the
    fetcher, the disk and the clock answer for one site is a SiteWorld value;
    the HTML tokenizer is a function from the bytes it read to its tokens; the
    metadata repository is the concrete store of module Sqlite, whose failures
    are inputs as well. Every call the service makes on a collaborator is
    appended to a call log, the sequence the test doubles observe. */
module Service {
  import opened Common
  import opened Domain
  import opened Sqlite

  // ---------------------------------------------------------------------------
  // Tokens and tag counting (parseMetaData, internal/service/fetch.go:29-58)
  // ---------------------------------------------------------------------------

  /** The kinds of token the HTML tokenizer yields before its final ErrorToken. */
  datatype TokenKind =
    | TextToken
    | StartTagToken
    | EndTagToken
    | SelfClosingTagToken
    | CommentToken
    | DoctypeToken

  /** A token and the tag name the tokenizer reports for it. */
  datatype Token = Token(kind: TokenKind, tagName: string)

  /** How a byte stream ends: io.EOF, or any other error. */
  datatype StreamEnd = EOF | ReadFailed(e: Error)

  /** A start or self-closing tag with exactly this name: the tokens the
      extractor counts. End tags, text, comments and doctypes never count. */
  predicate IsTag(t: Token, name: string)
  {
    (t.kind == StartTagToken || t.kind == SelfClosingTagToken) && t.tagName == name
  }

  /** How many tokens are tags named `name`, counted from the front. */
  function TagCount(tokens: seq<Token>, name: string): nat
  {
    if tokens == [] then 0
    else TagCount(tokens[..|tokens| - 1], name) + (if IsTag(tokens[|tokens| - 1], name) then 1 else 0)
  }

  /** The positions of the tags named `name`: an independent definition of the count. */
  ghost function TagPositions(tokens: seq<Token>, name: string): set<nat>
  {
    set i: nat | i < |tokens| && IsTag(tokens[i], name)
  }

  /** The count is the number of positions holding such a tag. */
  lemma {:induction false} TagCountIsPositions(tokens: seq<Token>, name: string)
    ensures TagCount(tokens, name) == |TagPositions(tokens, name)|
  {
    if tokens != [] {
      var n := |tokens| - 1;
      var front := tokens[..n];
      TagCountIsPositions(front, name);
      assert n !in TagPositions(front, name);
      if IsTag(tokens[n], name) {
        assert TagPositions(tokens, name) == TagPositions(front, name) + {n};
      } else {
        assert TagPositions(tokens, name) == TagPositions(front, name);
      }
    }
  }

  /** Counting distributes over concatenation: a token outside the counted
      tags leaves the count where it was. */
  lemma {:induction false} TagCountAppend(a: seq<Token>, b: seq<Token>, name: string)
    ensures TagCount(a + b, name) == TagCount(a, name) + TagCount(b, name)
  {
    if b == [] {
      assert a + b == a;
    } else {
      var n := |b| - 1;
      assert (a + b)[..|a + b| - 1] == a + b[..n];
      TagCountAppend(a, b[..n], name);
    }
  }

  /** A token is a link or an image, never both: the two counts together
      never exceed the number of tokens. */
  lemma {:induction false} LinksAndImagesBound(tokens: seq<Token>)
    ensures TagCount(tokens, "a") + TagCount(tokens, "img") <= |tokens|
  {
    if tokens != [] {
      LinksAndImagesBound(tokens[..|tokens| - 1]);
    }
  }

  /** A token stream with no tag of this name counts zero. */
  lemma {:induction false} TagCountNone(tokens: seq<Token>, name: string)
    requires forall i :: 0 <= i < |tokens| ==> !IsTag(tokens[i], name)
    ensures TagCount(tokens, name) == 0
  {
    if tokens != [] {
      TagCountNone(tokens[..|tokens| - 1], name);
    }
  }

  /** The tokens of the page used by internal/service/fetch_test.go:23-38,
      in pieces: the document head and body opening, a link, an image and
      the closing tags. */
  const PageStart: seq<Token> := [
    Token(TextToken, ""), Token(DoctypeToken, ""), Token(TextToken, ""),
    Token(StartTagToken, "html"), Token(TextToken, ""),
    Token(StartTagToken, "head"), Token(TextToken, ""),
    Token(StartTagToken, "title"), Token(TextToken, ""), Token(EndTagToken, "title"), Token(TextToken, ""),
    Token(EndTagToken, "head"), Token(TextToken, ""),
    Token(StartTagToken, "body"), Token(TextToken, "")
  ]
  const LinkElement: seq<Token> := [Token(StartTagToken, "a"), Token(TextToken, ""), Token(EndTagToken, "a"), Token(TextToken, "")]
  const ImageElement: seq<Token> := [Token(SelfClosingTagToken, "img"), Token(TextToken, "")]
  const PageEnd: seq<Token> := [Token(EndTagToken, "body"), Token(TextToken, ""), Token(EndTagToken, "html"), Token(TextToken, "")]

  const TestPage: seq<Token> :=
    PageStart + LinkElement + ImageElement + ImageElement + LinkElement + LinkElement + LinkElement + PageEnd

  /** One link element counts one link and no image; one image element one
      image and no link. */
  lemma ElementCounts()
    ensures TagCount(LinkElement, "a") == 1 && TagCount(LinkElement, "img") == 0
    ensures TagCount(ImageElement, "a") == 0 && TagCount(ImageElement, "img") == 1
  {
    var link, image := LinkElement, ImageElement;
    assert link == [link[0]] + link[1..];
    assert image == [image[0]] + image[1..];
    TagCountAppend([link[0]], link[1..], "a");
    TagCountAppend([link[0]], link[1..], "img");
    TagCountAppend([image[0]], image[1..], "a");
    TagCountAppend([image[0]], image[1..], "img");
    TagCountNone(link[1..], "a");
    TagCountNone(link[1..], "img");
    TagCountNone(image[1..], "a");
    TagCountNone(image[1..], "img");
    assert [link[0]][..0] == [] && [image[0]][..0] == [];
  }

  /** The test page has four links and two images. */
  lemma TestPageCounts()
    ensures TagCount(TestPage, "a") == 4 && TagCount(TestPage, "img") == 2
  {
    ElementCounts();
    TagCountNone(PageStart, "a");
    TagCountNone(PageStart, "img");
    TagCountNone(PageEnd, "a");
    TagCountNone(PageEnd, "img");
    var p1 := PageStart + LinkElement;
    var p2 := p1 + ImageElement;
    var p3 := p2 + ImageElement;
    var p4 := p3 + LinkElement;
    var p5 := p4 + LinkElement;
    var p6 := p5 + LinkElement;
    forall name | name == "a" || name == "img"
      ensures TagCount(p6 + PageEnd, name) == TagCount(p6, name)
      ensures TagCount(p6, name) == TagCount(PageStart, name) + 4 * TagCount(LinkElement, name) + 2 * TagCount(ImageElement, name)
    {
      TagCountAppend(PageStart, LinkElement, name);
      TagCountAppend(p1, ImageElement, name);
      TagCountAppend(p2, ImageElement, name);
      TagCountAppend(p3, LinkElement, name);
      TagCountAppend(p4, LinkElement, name);
      TagCountAppend(p5, LinkElement, name);
      TagCountAppend(p6, PageEnd, name);
    }
  }

  /** What the extractor returns for a token stream and how the stream ended:
      the counts when it ended with io.EOF, the wrapped error otherwise. The
      id and site are left empty; the caller fills them in. */
  function Extraction(tokens: seq<Token>, end: StreamEnd, now: Time): Result<MetaData>
  {
    if end.EOF? then Success(MetaData(PageID(""), "", now, TagCount(tokens, "a"), TagCount(tokens, "img")))
    else Failure(Wrapped("parse html", end.e))
  }

  // ---------------------------------------------------------------------------
  // The tee between the fetched content and the page writer (fetch.go:83)
  // ---------------------------------------------------------------------------

  /** A body as a sequence of reads followed by how the stream ends. */
  datatype Body = Body(chunks: seq<seq<byte>>, end: StreamEnd)

  /** What the fetcher hands over: the page identity and its unread content. */
  datatype FetchedItem = FetchedItem(page: Page, content: Body)

  /** A page writer that accepts `room` bytes in total (None: no limit), after
      which a write stores only what still fits and fails with `full`. */
  datatype Sink = Sink(room: Option<nat>, full: Error)

  /** The reads the parser sees through io.TeeReader: each read is first
      written to the sink and the parser gets what the write accepted. */
  datatype TeeRun = TeeRun(writes: seq<seq<byte>>, end: StreamEnd)

  /** Running the tee over the whole content. A read of no bytes writes
      nothing; a write that does not fit delivers the bytes that fit and ends
      the stream with the writer's error. */
  function Tee(chunks: seq<seq<byte>>, end: StreamEnd, room: Option<nat>, full: Error): TeeRun
    decreases |chunks|
  {
    if chunks == [] then TeeRun([], end)
    else if chunks[0] == [] then Tee(chunks[1..], end, room, full)
    else if room.None? then
      var rest := Tee(chunks[1..], end, None, full);
      TeeRun([chunks[0]] + rest.writes, rest.end)
    else if |chunks[0]| <= room.value then
      var rest := Tee(chunks[1..], end, Some(room.value - |chunks[0]|), full);
      TeeRun([chunks[0]] + rest.writes, rest.end)
    else TeeRun([chunks[0][..room.value]], ReadFailed(full))
  }

  /** Whether the whole content fits in the sink. */
  predicate Fits(content: seq<byte>, room: Option<nat>)
  {
    room.None? || |content| <= room.value
  }

  /** The tee's promise in closed form: the sink receives the content, in
      order, up to its room; the stream ends as the body does when everything
      fits and with the writer's error otherwise. */
  ghost predicate Delivers(chunks: seq<seq<byte>>, end: StreamEnd, room: Option<nat>, full: Error, r: TeeRun)
  {
    && (Fits(Flatten(chunks), room) ==> Flatten(r.writes) == Flatten(chunks) && r.end == end)
    && (!Fits(Flatten(chunks), room) ==> Flatten(r.writes) == Flatten(chunks)[..room.value] && r.end == ReadFailed(full))
  }

  /** The tee keeps its promise for every content and every sink. */
  lemma {:induction false} TeeDelivers(chunks: seq<seq<byte>>, end: StreamEnd, room: Option<nat>, full: Error)
    ensures Delivers(chunks, end, room, full, Tee(chunks, end, room, full))
    decreases |chunks|
  {
    if chunks != [] {
      var c, later := chunks[0], chunks[1..];
      if c == [] {
        TeeDelivers(later, end, room, full);
        TeeSkipsEmpty(chunks, end, room, full);
      } else if room.None? || |c| <= room.value {
        var left := if room.None? then None else Some(room.value - |c|);
        TeeDelivers(later, end, left, full);
        TeeWritesChunk(chunks, end, room, left, full);
      } else {
        TeeOverflows(chunks, end, room.value, full);
      }
    }
  }

  lemma TeeSkipsEmpty(chunks: seq<seq<byte>>, end: StreamEnd, room: Option<nat>, full: Error)
    requires chunks != [] && chunks[0] == []
    requires Delivers(chunks[1..], end, room, full, Tee(chunks[1..], end, room, full))
    ensures Delivers(chunks, end, room, full, Tee(chunks, end, room, full))
  {
    assert Flatten(chunks) == Flatten(chunks[1..]);
  }

  lemma TeeWritesChunk(chunks: seq<seq<byte>>, end: StreamEnd, room: Option<nat>, left: Option<nat>, full: Error)
    requires chunks != [] && chunks[0] != []
    requires room.None? ==> left.None?
    requires room.Some? ==> |chunks[0]| <= room.value && left == Some(room.value - |chunks[0]|)
    requires Delivers(chunks[1..], end, left, full, Tee(chunks[1..], end, left, full))
    ensures Delivers(chunks, end, room, full, Tee(chunks, end, room, full))
  {
    var c, later := chunks[0], chunks[1..];
    var rest := Tee(later, end, left, full);
    assert Tee(chunks, end, room, full) == TeeRun([c] + rest.writes, rest.end);
    assert Flatten(chunks) == c + Flatten(later);
    FlattenCons(c, rest.writes);
    if !Fits(Flatten(chunks), room) {
      PrefixPast(c, Flatten(later), room.value);
    }
  }

  lemma TeeOverflows(chunks: seq<seq<byte>>, end: StreamEnd, room: nat, full: Error)
    requires chunks != [] && |chunks[0]| > room
    ensures Delivers(chunks, end, Some(room), full, Tee(chunks, end, Some(room), full))
  {
    var c := chunks[0];
    assert Tee(chunks, end, Some(room), full) == TeeRun([c[..room]], ReadFailed(full));
    assert Flatten(chunks) == c + Flatten(chunks[1..]);
    FlattenCons(c[..room], []);
    PrefixWithin(c, Flatten(chunks[1..]), room);
  }

  lemma FlattenCons<T>(c: seq<T>, rest: seq<seq<T>>)
    ensures Flatten([c] + rest) == c + Flatten(rest)
  {
    assert ([c] + rest)[1..] == rest;
  }

  lemma PrefixPast<T>(a: seq<T>, b: seq<T>, k: nat)
    requires |a| <= k <= |a| + |b|
    ensures (a + b)[..k] == a + b[..k - |a|]
  {
  }

  lemma PrefixWithin<T>(a: seq<T>, b: seq<T>, k: nat)
    requires k <= |a|
    ensures (a + b)[..k] == a[..k]
  {
  }

  // ---------------------------------------------------------------------------
  // The per-site pipeline (fetchSite, internal/service/fetch.go:62-96)
  // ---------------------------------------------------------------------------

  /** The calls the service makes on its collaborators, in order. */
  datatype Call =
    | FetchCalled(site: string)
    | WriterRequested(location: string)
    | Wrote(bytes: seq<byte>)
    | SaveCalled(record: MetaData)
    | WriterClosed
    | ItemClosed
    | ByIDsCalled(ids: seq<PageID>)

  /** What the collaborators answer for one site: the fetcher's result, the
      disk's writer, the clock and the database's failure on Save. */
  datatype SiteWorld = SiteWorld(fetched: Result<FetchedItem>, writer: Result<Sink>, now: Time, saveFault: Option<Error>)

  /** One run of fetchSite: the calls made, the record the database stored
      (if any) and the returned error. */
  datatype Run = Run(calls: seq<Call>, stored: Option<MetaData>, err: Option<Error>)

  /** One Wrote call per write, in order. */
  function WroteCalls(writes: seq<seq<byte>>): (calls: seq<Call>)
    ensures |calls| == |writes|
    ensures forall i :: 0 <= i < |writes| ==> calls[i] == Wrote(writes[i])
  {
    if writes == [] then [] else [Wrote(writes[0])] + WroteCalls(writes[1..])
  }

  /** The bytes a call log hands to the page writer, in order. */
  function WrittenBytes(calls: seq<Call>): seq<byte>
  {
    if calls == [] then []
    else (if calls[0].Wrote? then calls[0].bytes else []) + WrittenBytes(calls[1..])
  }

  lemma {:induction false} WrittenBytesAppend(a: seq<Call>, b: seq<Call>)
    ensures WrittenBytes(a + b) == WrittenBytes(a) + WrittenBytes(b)
  {
    if a != [] {
      assert (a + b)[1..] == a[1..] + b;
      WrittenBytesAppend(a[1..], b);
    } else {
      assert a + b == b;
    }
  }

  lemma {:induction false} WrittenBytesOfWrites(writes: seq<seq<byte>>)
    ensures WrittenBytes(WroteCalls(writes)) == Flatten(writes)
  {
    if writes != [] {
      WrittenBytesOfWrites(writes[1..]);
    }
  }

  /** The table after a run: the stored record upserted, if any. */
  function StoreAfter(rows: map<PageID, MetaData>, stored: Option<MetaData>): map<PageID, MetaData>
  {
    if stored.Some? then Upserted(rows, stored.value) else rows
  }

  /** The end of fetchSite once the content is parsed: save the record with
      the page's id and site, then the deferred closes, the writer before
      the fetched item. */
  function Finish(page: Page, parsed: Result<MetaData>, saveFault: Option<Error>): Run
  {
    match parsed
    case Failure(e) => Run([WriterClosed, ItemClosed], None, Some(Wrapped("export metadata", e)))
    case Success(m) =>
      var record := m.(id := page.id, site := page.site);
      var calls := [SaveCalled(record), WriterClosed, ItemClosed];
      if saveFault.Some? then Run(calls, None, Some(Wrapped("save metadata", Wrapped("exec context", saveFault.value))))
      else Run(calls, Some(record), None)
  }

  /** The part of fetchSite after the writer is open: the content is teed
      into the tokenizer, then Finish. */
  function Streamed(item: FetchedItem, sink: Sink, w: SiteWorld, lex: seq<byte> -> seq<Token>): Run
  {
    var tee := Tee(item.content.chunks, item.content.end, sink.room, sink.full);
    var f := Finish(item.page, Extraction(lex(Flatten(tee.writes)), tee.end, w.now), w.saveFault);
    Run(WroteCalls(tee.writes) + f.calls, f.stored, f.err)
  }

  /** fetchSite as a specification: fetch, open the writer, then stream;
      each stage has its own exit. */
  function Pipeline(site: string, w: SiteWorld, lex: seq<byte> -> seq<Token>): Run
  {
    match w.fetched
    case Failure(e) => Run([FetchCalled(site)], None, Some(Wrapped("query page", e)))
    case Success(item) =>
      match w.writer
      case Failure(e) => Run([FetchCalled(site), WriterRequested(item.page.fileLocation), ItemClosed], None, Some(Wrapped("create file", e)))
      case Success(sink) =>
        var s := Streamed(item, sink, w, lex);
        Run([FetchCalled(site), WriterRequested(item.page.fileLocation)] + s.calls, s.stored, s.err)
  }

  /** A failed fetch ends the run at once: nothing to close, no writer, no save. */
  lemma FetchFailureStops(site: string, w: SiteWorld, lex: seq<byte> -> seq<Token>)
    requires w.fetched.Failure?
    ensures var r := Pipeline(site, w, lex);
      && r.err == Some(Wrapped("query page", w.fetched.error))
      && (forall c :: c in r.calls ==> !c.WriterRequested? && !c.SaveCalled? && c != ItemClosed)
      && r.stored.None?
  {
  }

  /** A writer that cannot be opened ends the run: no bytes, no save, and
      the fetched item is still closed, last. */
  lemma OpenFailureStops(site: string, w: SiteWorld, lex: seq<byte> -> seq<Token>)
    requires w.fetched.Success? && w.writer.Failure?
    ensures var r := Pipeline(site, w, lex);
      && r.err == Some(Wrapped("create file", w.writer.error))
      && (forall c :: c in r.calls ==> !c.Wrote? && !c.SaveCalled? && c != WriterClosed)
      && r.calls[|r.calls| - 1] == ItemClosed
      && multiset(r.calls)[ItemClosed] == 1
      && r.stored.None?
  {
  }

  /** Finish ends with the two closes and closes nothing before. */
  lemma FinishCloses(page: Page, parsed: Result<MetaData>, saveFault: Option<Error>)
    ensures var calls := Finish(page, parsed, saveFault).calls;
      && |calls| >= 2
      && calls[|calls| - 2..] == [WriterClosed, ItemClosed]
      && WriterClosed !in calls[..|calls| - 2] && ItemClosed !in calls[..|calls| - 2]
  {
  }

  /** Calls that end with the two closes still do once something without a
      close is put before them. */
  lemma ClosesAfter(front: seq<Call>, calls: seq<Call>)
    requires WriterClosed !in front && ItemClosed !in front
    requires |calls| >= 2 && calls[|calls| - 2..] == [WriterClosed, ItemClosed]
    requires WriterClosed !in calls[..|calls| - 2] && ItemClosed !in calls[..|calls| - 2]
    ensures var all := front + calls;
      && |all| >= 2
      && all[|all| - 2..] == [WriterClosed, ItemClosed]
      && WriterClosed !in all[..|all| - 2] && ItemClosed !in all[..|all| - 2]
  {
    var all := front + calls;
    assert all[..|all| - 2] == front + calls[..|calls| - 2];
    assert all[|all| - 2..] == calls[|calls| - 2..];
  }

  /** The streaming stage ends with the two closes and closes nothing before. */
  lemma StreamedCloses(item: FetchedItem, sink: Sink, w: SiteWorld, lex: seq<byte> -> seq<Token>)
    ensures var s := Streamed(item, sink, w, lex);
      && |s.calls| >= 2
      && s.calls[|s.calls| - 2..] == [WriterClosed, ItemClosed]
      && WriterClosed !in s.calls[..|s.calls| - 2] && ItemClosed !in s.calls[..|s.calls| - 2]
  {
    var tee := Tee(item.content.chunks, item.content.end, sink.room, sink.full);
    var parsed := Extraction(lex(Flatten(tee.writes)), tee.end, w.now);
    var wrote := WroteCalls(tee.writes);
    FinishCloses(item.page, parsed, w.saveFault);
    ClosesAfter(wrote, Finish(item.page, parsed, w.saveFault).calls);
  }

  /** Once the writer is open, every exit closes the writer exactly once and
      then the fetched item exactly once. */
  lemma ClosesInReverseOrder(site: string, w: SiteWorld, lex: seq<byte> -> seq<Token>)
    requires w.fetched.Success? && w.writer.Success?
    ensures var r := Pipeline(site, w, lex);
      && |r.calls| >= 4
      && r.calls[|r.calls| - 2] == WriterClosed && r.calls[|r.calls| - 1] == ItemClosed
      && multiset(r.calls)[WriterClosed] == 1 && multiset(r.calls)[ItemClosed] == 1
  {
    var item, sink := w.fetched.value, w.writer.value;
    var s := Streamed(item, sink, w, lex);
    StreamedCloses(item, sink, w, lex);
    var opening := [FetchCalled(site), WriterRequested(item.page.fileLocation)];
    var body := opening + s.calls[..|s.calls| - 2];
    var r := Pipeline(site, w, lex);
    assert r.calls == body + [WriterClosed, ItemClosed];
    assert WriterClosed !in body && ItemClosed !in body;
    assert multiset(r.calls) == multiset(body) + multiset{WriterClosed, ItemClosed};
  }

  /** The streaming stage writes exactly the teed bytes. */
  lemma StreamedWrites(item: FetchedItem, sink: Sink, w: SiteWorld, lex: seq<byte> -> seq<Token>)
    ensures WrittenBytes(Streamed(item, sink, w, lex).calls) == Flatten(Tee(item.content.chunks, item.content.end, sink.room, sink.full).writes)
  {
    var tee := Tee(item.content.chunks, item.content.end, sink.room, sink.full);
    var f := Finish(item.page, Extraction(lex(Flatten(tee.writes)), tee.end, w.now), w.saveFault);
    assert forall c :: c in f.calls ==> !c.Wrote?;
    NoWrites(f.calls);
    WrittenBytesAppend(WroteCalls(tee.writes), f.calls);
    WrittenBytesOfWrites(tee.writes);
  }

  /** The writer receives exactly the bytes the tokenizer consumed, in order. */
  lemma WriterGetsConsumedBytes(site: string, w: SiteWorld, lex: seq<byte> -> seq<Token>)
    requires w.fetched.Success? && w.writer.Success?
    ensures var item, sink := w.fetched.value, w.writer.value;
      WrittenBytes(Pipeline(site, w, lex).calls) == Flatten(Tee(item.content.chunks, item.content.end, sink.room, sink.full).writes)
  {
    var item, sink := w.fetched.value, w.writer.value;
    var s := Streamed(item, sink, w, lex);
    var opening := [FetchCalled(site), WriterRequested(item.page.fileLocation)];
    assert Pipeline(site, w, lex).calls == opening + s.calls;
    StreamedWrites(item, sink, w, lex);
    WrittenBytesAppend(opening, s.calls);
    assert WrittenBytes(opening) == [] by {
      assert opening[1..][1..] == [];
    }
  }

  /** When the record is saved, the writer has received the entire content
      of the page. */
  lemma WriterGetsContent(site: string, w: SiteWorld, lex: seq<byte> -> seq<Token>, record: MetaData)
    requires SaveCalled(record) in Pipeline(site, w, lex).calls
    ensures w.fetched.Success?
    ensures WrittenBytes(Pipeline(site, w, lex).calls) == Flatten(w.fetched.value.content.chunks)
  {
    var item, sink := w.fetched.value, w.writer.value;
    var s := Streamed(item, sink, w, lex);
    var tee := Tee(item.content.chunks, item.content.end, sink.room, sink.full);
    assert SaveCalled(record) in s.calls;
    assert SaveCalled(record) !in WroteCalls(tee.writes);
    assert tee.end.EOF?;
    TeeDelivers(item.content.chunks, item.content.end, sink.room, sink.full);
    WriterGetsConsumedBytes(site, w, lex);
  }

  lemma {:induction false} NoWrites(calls: seq<Call>)
    requires forall c :: c in calls ==> !c.Wrote?
    ensures WrittenBytes(calls) == []
  {
    if calls != [] {
      assert calls[0] in calls;
      NoWrites(calls[1..]);
    }
  }

  /** A site succeeds exactly when every stage does: the fetch, the writer,
      the whole content fits the writer, the body ends with io.EOF and the
      save goes through. */
  lemma PipelineSucceedsIff(site: string, w: SiteWorld, lex: seq<byte> -> seq<Token>)
    ensures Pipeline(site, w, lex).err.None? <==>
      && w.fetched.Success? && w.writer.Success?
      && Fits(Flatten(w.fetched.value.content.chunks), w.writer.value.room)
      && w.fetched.value.content.end.EOF?
      && w.saveFault.None?
  {
    if w.fetched.Success? && w.writer.Success? {
      var item, sink := w.fetched.value, w.writer.value;
      TeeDelivers(item.content.chunks, item.content.end, sink.room, sink.full);
    }
  }

  /** The saved record carries the page's id and site, the clock reading
      taken before parsing and the link and image counts of the whole content;
      the database stores it unless Save fails. */
  lemma SavedRecordFields(site: string, w: SiteWorld, lex: seq<byte> -> seq<Token>, record: MetaData)
    requires SaveCalled(record) in Pipeline(site, w, lex).calls
    ensures w.fetched.Success?
    ensures var item := w.fetched.value;
      var tokens := lex(Flatten(item.content.chunks));
      && record.id == item.page.id && record.site == item.page.site
      && record.lastFetched == w.now
      && record.numLinks == TagCount(tokens, "a") && record.numImages == TagCount(tokens, "img")
    ensures Pipeline(site, w, lex).stored == (if w.saveFault.None? then Some(record) else None)
  {
    var item, sink := w.fetched.value, w.writer.value;
    var tee := Tee(item.content.chunks, item.content.end, sink.room, sink.full);
    var parsed := Extraction(lex(Flatten(tee.writes)), tee.end, w.now);
    var f := Finish(item.page, parsed, w.saveFault);
    assert SaveCalled(record) in WroteCalls(tee.writes) + f.calls;
    assert SaveCalled(record) !in WroteCalls(tee.writes);
    FinishSaves(item.page, parsed, w.saveFault, record);
    TeeDelivers(item.content.chunks, item.content.end, sink.room, sink.full);
  }

  /** Finish saves only a parsed record, with the page's id and site. */
  lemma FinishSaves(page: Page, parsed: Result<MetaData>, saveFault: Option<Error>, record: MetaData)
    requires SaveCalled(record) in Finish(page, parsed, saveFault).calls
    ensures parsed.Success? && record == parsed.value.(id := page.id, site := page.site)
    ensures Finish(page, parsed, saveFault).stored == (if saveFault.None? then Some(record) else None)
  {
  }

  // ---------------------------------------------------------------------------
  // The batch (Fetch, internal/service/fetch.go:140-150)
  // ---------------------------------------------------------------------------

  /** The error a failing site contributes to the batch. */
  function Labelled(site: string, e: Error): Error
  {
    Wrapped("fetch site " + site, e)
  }

  /** The run of each site, in order. */
  function Runs(sites: seq<string>, worlds: seq<SiteWorld>, lex: seq<byte> -> seq<Token>): (runs: seq<Run>)
    requires |worlds| == |sites|
    ensures |runs| == |sites|
    ensures forall i :: 0 <= i < |sites| ==> runs[i] == Pipeline(sites[i], worlds[i], lex)
  {
    seq(|sites|, i requires 0 <= i < |sites| => Pipeline(sites[i], worlds[i], lex))
  }

  /** All sites run one after the other: the calls, the table afterwards and
      the failures, a multiset because the order is not guaranteed. */
  datatype BatchRun = BatchRun(calls: seq<Call>, rows: map<PageID, MetaData>, failures: multiset<Error>)

  /** The batch given the run of each site. */
  function Batch(rows: map<PageID, MetaData>, sites: seq<string>, runs: seq<Run>): BatchRun
    requires |runs| == |sites|
  {
    if sites == [] then BatchRun([], rows, multiset{})
    else
      var n := |sites| - 1;
      var before := Batch(rows, sites[..n], runs[..n]);
      var run := runs[n];
      BatchRun(before.calls + run.calls, StoreAfter(before.rows, run.stored),
               before.failures + (if run.err.Some? then multiset{Labelled(sites[n], run.err.value)} else multiset{}))
  }

  /** The positions of the runs that fail. */
  ghost function Failing(runs: seq<Run>): set<nat>
  {
    set i: nat | i < |runs| && runs[i].err.Some?
  }

  /** One more run adds its position to the failing ones exactly when it fails. */
  lemma FailingSnoc(runs: seq<Run>)
    requires runs != []
    ensures var n := |runs| - 1;
      && n !in Failing(runs[..n])
      && Failing(runs) == Failing(runs[..n]) + (if runs[n].err.Some? then {n} else {})
  {
    var n := |runs| - 1;
    assert forall i :: 0 <= i < n ==> runs[..n][i] == runs[i];
  }

  /** Each failing site contributes exactly one error: the number of errors
      is the number of failing sites. */
  lemma {:induction false} BatchFailureCount(rows: map<PageID, MetaData>, sites: seq<string>, runs: seq<Run>)
    requires |runs| == |sites|
    ensures |Batch(rows, sites, runs).failures| == |Failing(runs)|
  {
    if sites != [] {
      var n := |sites| - 1;
      BatchFailureCount(rows, sites[..n], runs[..n]);
      FailingSnoc(runs);
    }
  }

  /** Every collected error is a failing site's error labelled with that site. */
  lemma {:induction false} BatchFailuresLabelled(rows: map<PageID, MetaData>, sites: seq<string>, runs: seq<Run>)
    requires |runs| == |sites|
    ensures forall e :: e in Batch(rows, sites, runs).failures ==>
      exists i :: 0 <= i < |sites| && runs[i].err.Some? && e == Labelled(sites[i], runs[i].err.value)
  {
    if sites != [] {
      var n := |sites| - 1;
      var front, fruns := sites[..n], runs[..n];
      BatchFailuresLabelled(rows, front, fruns);
      var g := Batch(rows, front, fruns).failures;
      forall e | e in Batch(rows, sites, runs).failures
        ensures exists i :: 0 <= i < |sites| && runs[i].err.Some? && e == Labelled(sites[i], runs[i].err.value)
      {
        if e in g {
          var i :| 0 <= i < n && fruns[i].err.Some? && e == Labelled(front[i], fruns[i].err.value);
          assert front[i] == sites[i] && fruns[i] == runs[i];
        } else {
          assert runs[n].err.Some?;
        }
      }
    }
  }

  /** Every failing site's labelled error is collected. */
  lemma {:induction false} BatchFailuresComplete(rows: map<PageID, MetaData>, sites: seq<string>, runs: seq<Run>)
    requires |runs| == |sites|
    ensures forall i :: 0 <= i < |sites| && runs[i].err.Some? ==>
      Labelled(sites[i], runs[i].err.value) in Batch(rows, sites, runs).failures
  {
    if sites != [] {
      var n := |sites| - 1;
      var front, fruns := sites[..n], runs[..n];
      BatchFailuresComplete(rows, front, fruns);
      forall i | 0 <= i < n && runs[i].err.Some?
        ensures Labelled(sites[i], runs[i].err.value) in Batch(rows, sites, runs).failures
      {
        assert front[i] == sites[i] && fruns[i] == runs[i];
      }
    }
  }

  /** The positions whose labelled error is `e`. */
  ghost function LabelledAt(sites: seq<string>, runs: seq<Run>, e: Error): set<nat>
    requires |runs| == |sites|
  {
    set i: nat | i < |runs| && runs[i].err.Some? && Labelled(sites[i], runs[i].err.value) == e
  }

  /** One more run adds its position to those labelled `e` exactly when its
      labelled error is `e`. */
  lemma LabelledAtSnoc(sites: seq<string>, runs: seq<Run>, e: Error)
    requires |runs| == |sites| && sites != []
    ensures var n := |sites| - 1;
      && n !in LabelledAt(sites[..n], runs[..n], e)
      && LabelledAt(sites, runs, e) == LabelledAt(sites[..n], runs[..n], e) +
           (if runs[n].err.Some? && Labelled(sites[n], runs[n].err.value) == e then {n} else {})
  {
    var n := |sites| - 1;
    assert forall i :: 0 <= i < n ==> sites[..n][i] == sites[i] && runs[..n][i] == runs[i];
  }

  /** Each error is collected as many times as there are failing sites whose
      labelled error it is: a site listed twice contributes twice. */
  lemma {:induction false} BatchFailureMultiplicity(rows: map<PageID, MetaData>, sites: seq<string>, runs: seq<Run>, e: Error)
    requires |runs| == |sites|
    ensures Batch(rows, sites, runs).failures[e] == |LabelledAt(sites, runs, e)|
  {
    if sites != [] {
      var n := |sites| - 1;
      BatchFailureMultiplicity(rows, sites[..n], runs[..n], e);
      LabelledAtSnoc(sites, runs, e);
    }
  }

  /** The batch returns no error exactly when every site succeeds; in
      particular an empty batch returns none. */
  lemma BatchSucceedsIff(rows: map<PageID, MetaData>, sites: seq<string>, runs: seq<Run>)
    requires |runs| == |sites|
    ensures Batch(rows, sites, runs).failures == multiset{} <==> forall i :: 0 <= i < |runs| ==> runs[i].err.None?
  {
    BatchFailureCount(rows, sites, runs);
    if exists i :: 0 <= i < |runs| && runs[i].err.Some? {
      var i :| 0 <= i < |runs| && runs[i].err.Some?;
      assert i in Failing(runs);
    } else {
      assert Failing(runs) == {};
    }
  }

  // ---------------------------------------------------------------------------
  // The read path (GetMetaDataForSites, internal/service/metadata.go:12-25)
  // ---------------------------------------------------------------------------

  /** The ids asked for: each site verbatim, position by position. */
  function SiteIds(sites: seq<string>): (ids: seq<PageID>)
    ensures |ids| == |sites|
    ensures forall i :: 0 <= i < |sites| ==> ids[i].String() == sites[i]
  {
    if sites == [] then [] else [PageID(sites[0])] + SiteIds(sites[1..])
  }

  lemma SeqAssoc<T>(a: seq<T>, b: seq<T>, c: seq<T>)
    ensures (a + b) + c == a + (b + c)
  {
  }

  // ---------------------------------------------------------------------------
  // The service object
  // ---------------------------------------------------------------------------

  class Service {
    /** The HTML tokenizer: the tokens it yields for the bytes it read. */
    const lex: seq<byte> -> seq<Token>
    const repo: MetaDataRepo
    /** Every call made on a collaborator so far. */
    var log: seq<Call>

    ghost predicate Valid()
      reads this, repo
    {
      repo.Valid()
    }

    constructor(lex: seq<byte> -> seq<Token>, repo: MetaDataRepo)
      requires repo.Valid()
      ensures Valid() && this.lex == lex && this.repo == repo && log == []
    {
      this.lex := lex;
      this.repo := repo;
      log := [];
    }

    /** parseMetaData: the clock is read once, before the first token; the
        counts start at zero and each start or self-closing tag named "a" or
        "img" adds one to its count. */
    method ParseMetaData(tokens: seq<Token>, end: StreamEnd, now: Time) returns (r: Result<MetaData>)
      ensures r.Success? <==> end.EOF?
      ensures r.Success? ==> (r.value.lastFetched == now
        && r.value.numLinks == TagCount(tokens, "a") && r.value.numImages == TagCount(tokens, "img"))
      ensures r.Failure? ==> r.error == Wrapped("parse html", end.e)
      ensures r == Extraction(tokens, end, now)
    {
      var metaData := MetaData(PageID(""), "", now, 0, 0);
      var i := 0;
      while i < |tokens|
        invariant 0 <= i <= |tokens|
        invariant metaData.id == PageID("") && metaData.site == "" && metaData.lastFetched == now
        invariant metaData.numLinks == TagCount(tokens[..i], "a")
        invariant metaData.numImages == TagCount(tokens[..i], "img")
      {
        var token := tokens[i];
        assert tokens[..i + 1][..i] == tokens[..i];
        i := i + 1;
        if token.kind != StartTagToken && token.kind != SelfClosingTagToken {
          continue;
        }
        if token.tagName == "a" {
          metaData := metaData.(numLinks := metaData.numLinks + 1);
        } else if token.tagName == "img" {
          metaData := metaData.(numImages := metaData.numImages + 1);
        }
      }
      assert tokens[..i] == tokens;
      if !end.EOF? {
        return Failure(Wrapped("parse html", end.e));
      }
      return Success(metaData);
    }

    /** fetchSite: the log grows by the run's calls, the error is the run's
        and the table holds the record the database accepted. */
    method FetchSite(site: string, w: SiteWorld) returns (err: Option<Error>)
      requires Valid()
      modifies this, repo
      ensures Valid()
      ensures log == old(log) + Pipeline(site, w, lex).calls
      ensures err == Pipeline(site, w, lex).err
      ensures repo.rows == StoreAfter(old(repo.rows), Pipeline(site, w, lex).stored)
    {
      ghost var log0 := log;
      log := log + [FetchCalled(site)];
      if w.fetched.Failure? {
        return Some(Wrapped("query page", w.fetched.error));
      }
      var item := w.fetched.value;
      log := log + [WriterRequested(item.page.fileLocation)];
      ghost var opening := [FetchCalled(site), WriterRequested(item.page.fileLocation)];
      assert log == log0 + opening;
      if w.writer.Failure? {
        log := log + [ItemClosed];
        assert log == log0 + (opening + [ItemClosed]);
        return Some(Wrapped("create file", w.writer.error));
      }
      err := Stream(item, w.writer.value, w);
      SeqAssoc(log0, opening, Streamed(item, w.writer.value, w, lex).calls);
    }

    /** The rest of fetchSite once the writer is open: tee the content into
        the extractor, fill in the page's id and site, save, and run the
        deferred closes, the writer first. */
    method Stream(item: FetchedItem, sink: Sink, w: SiteWorld) returns (err: Option<Error>)
      requires Valid()
      modifies this, repo
      ensures Valid()
      ensures log == old(log) + Streamed(item, sink, w, lex).calls
      ensures err == Streamed(item, sink, w, lex).err
      ensures repo.rows == StoreAfter(old(repo.rows), Streamed(item, sink, w, lex).stored)
    {
      ghost var log0 := log;
      var tee := Tee(item.content.chunks, item.content.end, sink.room, sink.full);
      ghost var wrote := WroteCalls(tee.writes);
      log := log + WroteCalls(tee.writes);
      var parsed := ParseMetaData(lex(Flatten(tee.writes)), tee.end, w.now);
      ghost var f := Finish(item.page, parsed, w.saveFault);
      if parsed.Failure? {
        log := log + [WriterClosed, ItemClosed];
        SeqAssoc(log0, wrote, f.calls);
        return Some(Wrapped("export metadata", parsed.error));
      }
      var metaData := parsed.value;
      metaData := metaData.(id := item.page.id);
      metaData := metaData.(site := item.page.site);
      log := log + [SaveCalled(metaData)];
      var saveErr := repo.Save(metaData, w.saveFault);
      log := log + [WriterClosed, ItemClosed];
      assert log == (log0 + wrote) + f.calls;
      SeqAssoc(log0, wrote, f.calls);
      if saveErr.Some? {
        return Some(Wrapped("save metadata", saveErr.value));
      }
      return None;
    }

    /** Fetch: every site runs and each failure is joined, labelled with its
        site; no error at all when every site succeeds. */
    method Fetch(sites: seq<string>, worlds: seq<SiteWorld>) returns (errs: Option<multiset<Error>>)
      requires Valid()
      requires |worlds| == |sites|
      modifies this, repo
      ensures Valid()
      ensures var b := Batch(old(repo.rows), sites, Runs(sites, worlds, lex));
        && log == old(log) + b.calls
        && repo.rows == b.rows
        && errs == (if b.failures == multiset{} then None else Some(b.failures))
    {
      var collected: multiset<Error> := multiset{};
      ghost var rows0 := repo.rows;
      ghost var runs := Runs(sites, worlds, lex);
      for i := 0 to |sites|
        invariant Valid()
        invariant log == old(log) + Batch(rows0, sites[..i], runs[..i]).calls
        invariant repo.rows == Batch(rows0, sites[..i], runs[..i]).rows
        invariant collected == Batch(rows0, sites[..i], runs[..i]).failures
      {
        ghost var before := Batch(rows0, sites[..i], runs[..i]);
        ghost var run := runs[i];
        assert sites[..i + 1][..i] == sites[..i] && runs[..i + 1][..i] == runs[..i];
        assert Batch(rows0, sites[..i + 1], runs[..i + 1]) ==
          BatchRun(before.calls + run.calls, StoreAfter(before.rows, run.stored),
                   before.failures + (if run.err.Some? then multiset{Labelled(sites[i], run.err.value)} else multiset{}));
        ghost var logBefore := log;
        var err := FetchSite(sites[i], worlds[i]);
        assert log == logBefore + run.calls;
        SeqAssoc(old(log), before.calls, run.calls);
        if err.Some? {
          collected := collected + multiset{Labelled(sites[i], err.value)};
        }
      }
      assert sites[..|sites|] == sites && runs[..|sites|] == runs;
      if collected == multiset{} {
        return None;
      }
      return Some(collected);
    }

    /** GetMetaDataForSites: one ByIDs call with the sites as ids; a
        repository error comes back wrapped, a result comes back unchanged. */
    method GetMetaDataForSites(sites: seq<string>, fault: QueryFault) returns (r: Result<seq<MetaData>>)
      requires Valid()
      modifies this
      ensures log == old(log) + [ByIDsCalled(SiteIds(sites))]
      ensures var q := QueryError(repo.rows, SiteIds(sites), fault);
        && (r.Failure? <==> q.Some?)
        && (r.Failure? ==> r.error == Wrapped("get metadata", q.value))
        && (r.Success? ==> IsAnswer(repo.rows, SiteIds(sites), r.value))
    {
      ghost var want := SiteIds(sites);
      var ids := new PageID[|sites|](_ => PageID(""));
      for i := 0 to |sites|
        invariant log == old(log)
        invariant forall k :: 0 <= k < i ==> ids[k] == want[k]
      {
        ids[i] := PageID(sites[i]);
      }
      assert ids[..] == want;
      log := log + [ByIDsCalled(ids[..])];
      var items := repo.ByIDs(ids[..], fault);
      assert repo.rows == old(repo.rows);
      if items.Failure? {
        return Failure(Wrapped("get metadata", items.error));
      }
      return Success(items.value);
    }
  }
}
