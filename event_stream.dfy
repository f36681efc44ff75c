/** The server-sent-event decoding loop of `sendMessage` (llmService.ts
    lines 64-94): every read is split into lines on its own, blank lines are
    dropped, `data: ` lines other than `data: [DONE]` are parsed as JSON, and
    each non-empty `choices[0].delta.content` is appended to the result and
    handed to `onChunk`. The framing is the `text/event-stream` format of
    section 9.2 of the WHATWG HTML Living Standard, reduced to `data: ` lines.

    The specification is given line by line (`ClassifyLine`, `LineDeltas`)
    and read by read (`ReadLines`, `StreamLines`); `ReadEventStream` is the
    loop itself, proved against it. */
module EventStream {
  import opened LlmTypes
  import opened JsText

  const DataPrefix := "data: "
  const DoneSentinel := "[DONE]"

  /** What one kept line of a read amounts to. */
  datatype LineEvent =
    | Ignored       // not a `data: ` line (comment, keep-alive, other field)
    | DoneMarker    // `data: [DONE]`
    | Unparseable   // the payload did not parse, or had no `choices`
    | NoContent     // parsed, but the delta content is absent or empty
    | Content(text: string)

  /** Lines 76-86 for one line. */
  function ClassifyLine(line: string, parse: string -> EventParse): (r: LineEvent)
    ensures !(DataPrefix <= line) ==> r == Ignored
    ensures r == DoneMarker <==> line == DataPrefix + DoneSentinel
    ensures r == Unparseable <==> DataPrefix <= line && line != DataPrefix + DoneSentinel
                                  && parse(line[|DataPrefix|..]).Malformed?
    ensures r.Content? ==> r.text != "" && DataPrefix <= line
                           && parse(line[|DataPrefix|..]) == Parsed(Some(r.text))
  {
    if !(DataPrefix <= line) then Ignored
    else
      var data := line[|DataPrefix|..];
      assert line == DataPrefix + data;
      if data == DoneSentinel then DoneMarker
      else
        match parse(data)
        case Malformed => Unparseable
        case Parsed(content) =>
          var text := if content.Some? then content.value else "";
          if text != "" then Content(text) else NoContent
  }

  /** The delta a line delivers: none, or one non-empty string. */
  function LineDelta(line: string, parse: string -> EventParse): (r: seq<string>)
    ensures |r| <= 1
    ensures r != [] <==> ClassifyLine(line, parse).Content?
    ensures r != [] ==> r[0] != "" && r[0] == ClassifyLine(line, parse).text
  {
    var event := ClassifyLine(line, parse);
    if event.Content? then [event.text] else []
  }

  /** `lines.filter(line => line.trim() !== '')`. */
  function NonBlank(lines: seq<string>): (r: seq<string>)
    ensures |r| <= |lines|
  {
    if lines == [] then []
    else
      var last := lines[|lines| - 1];
      NonBlank(lines[..|lines| - 1]) + (if Trim(last) != "" then [last] else [])
  }

  /** `chunk.split('\n').filter(line => line.trim() !== '')`: the lines the
      inner loop visits for one read. */
  function ReadLines(chunk: string): (r: seq<string>)
    ensures |r| <= |SplitLines(chunk)|
  {
    NonBlank(SplitLines(chunk))
  }

  /** What `f` gives for each read, read after read. */
  function PerRead(chunks: seq<string>, f: string -> seq<string>): seq<string>
  {
    if chunks == [] then []
    else PerRead(chunks[..|chunks| - 1], f) + f(chunks[|chunks| - 1])
  }

  /** The lines of all reads, read after read. */
  function StreamLines(chunks: seq<string>): seq<string>
  {
    PerRead(chunks, ReadLines)
  }

  /** The deltas of a sequence of lines, in line order. */
  function LineDeltas(lines: seq<string>, parse: string -> EventParse): (r: seq<string>)
    ensures |r| <= |lines|
  {
    if lines == [] then []
    else LineDeltas(lines[..|lines| - 1], parse) + LineDelta(lines[|lines| - 1], parse)
  }

  /** The values `onChunk` receives for a body read as `chunks`, in order. */
  function StreamDeltas(chunks: seq<string>, parse: string -> EventParse): (r: seq<string>)
    ensures |r| <= |StreamLines(chunks)|
  {
    LineDeltas(StreamLines(chunks), parse)
  }

  // ---------------------------------------------------------------------------
  // The loop
  // ---------------------------------------------------------------------------

  /** Lines 64-94: drive the reads, appending every delta to the result and
      handing it to `onChunk` (whose arguments are `delivered`). A read that
      rejects ends the loop with that rejection; what was delivered stays. */
  method ReadEventStream(body: Body, parse: string -> EventParse)
    returns (delivered: seq<string>, outcome: Result<string, Thrown>)
    ensures delivered == StreamDeltas(body.chunks, parse)
    ensures body.end.Done? ==> outcome == Ok(Concat(delivered))
    ensures body.end.ReadFailed? ==> outcome == Err(Rejected(body.end.reason))
  {
    var fullContent := "";
    delivered := [];
    var i := 0;
    while i < |body.chunks|
      invariant 0 <= i <= |body.chunks|
      invariant delivered == StreamDeltas(body.chunks[..i], parse)
      invariant fullContent == Concat(delivered)
    {
      StreamStep(body.chunks, i, parse);
      delivered, fullContent := DeliverLines(ReadLines(body.chunks[i]), parse, delivered, fullContent);
      i := i + 1;
    }
    assert body.chunks[..i] == body.chunks;
    match body.end
    case Done => outcome := Ok(fullContent);
    case ReadFailed(reason) => outcome := Err(Rejected(reason));
  }

  /** One more read appends the deltas of that read's lines. */
  lemma StreamStep(chunks: seq<string>, i: nat, parse: string -> EventParse)
    requires i < |chunks|
    ensures StreamDeltas(chunks[..i + 1], parse)
         == StreamDeltas(chunks[..i], parse) + LineDeltas(ReadLines(chunks[i]), parse)
  {
    assert chunks[..i + 1][..i] == chunks[..i];
    assert StreamLines(chunks[..i + 1]) == StreamLines(chunks[..i]) + ReadLines(chunks[i]);
    LineDeltasAppend(StreamLines(chunks[..i]), ReadLines(chunks[i]), parse);
  }

  /** Lines 75-91: the inner loop over the kept lines of one read, continuing
      the accumulated text and the `onChunk` arguments so far. */
  method DeliverLines(lines: seq<string>, parse: string -> EventParse,
                      deliveredBefore: seq<string>, contentBefore: string)
    returns (delivered: seq<string>, fullContent: string)
    requires contentBefore == Concat(deliveredBefore)
    ensures delivered == deliveredBefore + LineDeltas(lines, parse)
    ensures fullContent == Concat(delivered)
  {
    delivered, fullContent := deliveredBefore, contentBefore;
    var j := 0;
    while j < |lines|
      invariant 0 <= j <= |lines|
      invariant delivered == deliveredBefore + LineDeltas(lines[..j], parse)
      invariant fullContent == Concat(delivered)
    {
      DeliverStep(deliveredBefore, lines, j, parse);
      delivered, fullContent := ProcessLine(lines[j], parse, delivered, fullContent);
      j := j + 1;
    }
    assert lines[..j] == lines;
  }

  /** Lines 76-90 for one line: a content delta is appended to the text and
      handed to `onChunk`; any other line changes neither. */
  method ProcessLine(line: string, parse: string -> EventParse,
                     deliveredBefore: seq<string>, contentBefore: string)
    returns (delivered: seq<string>, fullContent: string)
    requires contentBefore == Concat(deliveredBefore)
    ensures delivered == deliveredBefore + LineDelta(line, parse)
    ensures fullContent == Concat(delivered)
  {
    var event := ClassifyLine(line, parse);
    if event.Content? {
      ConcatSnoc(deliveredBefore, event.text);
      fullContent := contentBefore + event.text;
      delivered := deliveredBefore + [event.text];
    } else {
      // not a `data: ` line, the `[DONE]` sentinel, a payload whose parse
      // was caught and logged, or an empty delta: nothing is delivered
      assert LineDelta(line, parse) == [];
      assert deliveredBefore + [] == deliveredBefore;
      delivered, fullContent := deliveredBefore, contentBefore;
    }
  }

  /** One more line visited by the inner loop appends that line's delta. */
  lemma DeliverStep(deliveredBefore: seq<string>, lines: seq<string>, j: nat, parse: string -> EventParse)
    requires j < |lines|
    ensures deliveredBefore + LineDeltas(lines[..j + 1], parse)
         == (deliveredBefore + LineDeltas(lines[..j], parse)) + LineDelta(lines[j], parse)
  {
    assert lines[..j + 1] == lines[..j] + [lines[j]];
    LineDeltasSnoc(lines[..j], lines[j], parse);
    var x, y, z := deliveredBefore, LineDeltas(lines[..j], parse), LineDelta(lines[j], parse);
    assert (x + y) + z == x + (y + z);
  }

  /** Visiting one more line appends that line's delta. */
  lemma LineDeltasSnoc(prev: seq<string>, line: string, parse: string -> EventParse)
    ensures LineDeltas(prev + [line], parse) == LineDeltas(prev, parse) + LineDelta(line, parse)
  {
    assert (prev + [line])[..|prev|] == prev;
  }

  /** Appending one more delta to the accumulated text. */
  lemma ConcatSnoc(parts: seq<string>, text: string)
    ensures Concat(parts + [text]) == Concat(parts) + text
  {
    assert (parts + [text])[..|parts|] == parts;
  }

  // ---------------------------------------------------------------------------
  // Delivery is line by line and read by read
  // ---------------------------------------------------------------------------

  /** The deltas of two runs of lines are those of each run, in order. */
  lemma {:induction false} LineDeltasAppend(a: seq<string>, b: seq<string>, parse: string -> EventParse)
    ensures LineDeltas(a + b, parse) == LineDeltas(a, parse) + LineDeltas(b, parse)
    decreases |b|
  {
    if b == [] {
      assert a + b == a;
    } else {
      var b', last := b[..|b| - 1], b[|b| - 1];
      assert (a + b)[..|a + b| - 1] == a + b';
      assert (a + b)[|a + b| - 1] == last;
      LineDeltasAppend(a, b', parse);
      var x, y, z := LineDeltas(a, parse), LineDeltas(b', parse), LineDelta(last, parse);
      assert (x + y) + z == x + (y + z);
    }
  }

  /** Every value handed to `onChunk` is non-empty. */
  lemma {:induction false} LineDeltasNonEmpty(lines: seq<string>, parse: string -> EventParse)
    ensures forall k :: 0 <= k < |LineDeltas(lines, parse)| ==> LineDeltas(lines, parse)[k] != ""
    decreases |lines|
  {
    if lines != [] {
      LineDeltasNonEmpty(lines[..|lines| - 1], parse);
    }
  }

  /** A line that delivers nothing (not a `data: ` line, `[DONE]`, a payload
      that does not parse or has no `choices`, an absent or empty delta)
      leaves the deltas of the lines around it exactly as they were. */
  lemma SilentLineSkipped(before: seq<string>, line: string, after: seq<string>, parse: string -> EventParse)
    requires !ClassifyLine(line, parse).Content?
    ensures LineDeltas(before + [line] + after, parse) == LineDeltas(before, parse) + LineDeltas(after, parse)
  {
    LineDeltasAppend(before + [line], after, parse);
    LineDeltasSnoc(before, line, parse);
    assert LineDelta(line, parse) == [];
    assert LineDeltas(before + [line], parse) == LineDeltas(before, parse);
  }

  /** A `data: ` line whose payload does not parse does not abort decoding:
      the lines before and after it deliver what they would deliver alone. */
  lemma MalformedPayloadSkipped(before: seq<string>, line: string, after: seq<string>, parse: string -> EventParse)
    requires DataPrefix <= line && parse(line[|DataPrefix|..]).Malformed?
    ensures LineDeltas(before + [line] + after, parse) == LineDeltas(before, parse) + LineDeltas(after, parse)
  {
    SilentLineSkipped(before, line, after, parse);
  }

  /** A content line delivers its content exactly once, between the deltas of
      the lines before it and those of the lines after it. */
  lemma ContentLineDelivered(before: seq<string>, line: string, after: seq<string>, parse: string -> EventParse)
    requires ClassifyLine(line, parse).Content?
    ensures LineDeltas(before + [line] + after, parse)
         == LineDeltas(before, parse) + [ClassifyLine(line, parse).text] + LineDeltas(after, parse)
  {
    LineDeltasAppend(before + [line], after, parse);
    assert (before + [line])[..|before|] == before;
  }

  /** Reads are decoded independently: the deltas of a body are those of its
      first reads followed by those of its later reads. */
  lemma StreamDeltasAppend(c1: seq<string>, c2: seq<string>, parse: string -> EventParse)
    ensures StreamDeltas(c1 + c2, parse) == StreamDeltas(c1, parse) + StreamDeltas(c2, parse)
  {
    PerReadAppend(c1, c2, ReadLines);
    LineDeltasAppend(StreamLines(c1), StreamLines(c2), parse);
  }

  lemma {:induction false} PerReadAppend(c1: seq<string>, c2: seq<string>, f: string -> seq<string>)
    ensures PerRead(c1 + c2, f) == PerRead(c1, f) + PerRead(c2, f)
    decreases |c2|
  {
    if c2 == [] {
      assert c1 + c2 == c1;
    } else {
      var c2', last := c2[..|c2| - 1], c2[|c2| - 1];
      assert (c1 + c2)[..|c1 + c2| - 1] == c1 + c2';
      assert (c1 + c2)[|c1 + c2| - 1] == last;
      PerReadAppend(c1, c2', f);
      var x, y, z := PerRead(c1, f), PerRead(c2', f), f(last);
      assert (x + y) + z == x + (y + z);
    }
  }

  // ---------------------------------------------------------------------------
  // The blank-line filter
  // ---------------------------------------------------------------------------

  /** A blank line never starts with `data: `, so it would deliver nothing. */
  lemma BlankLineIgnored(line: string, parse: string -> EventParse)
    requires IsBlank(line)
    ensures ClassifyLine(line, parse) == Ignored
  {
    if line != [] {
      assert IsWhitespace(line[0]);
      assert line[0] != DataPrefix[0];
    }
  }

  /** The filter keeps only non-blank lines, each taken from the input, and
      drops nothing else: a line of the input is kept exactly when its trim
      is non-empty. */
  lemma {:induction false} NonBlankKeepsNonBlank(lines: seq<string>)
    ensures forall k :: 0 <= k < |NonBlank(lines)| ==>
              NonBlank(lines)[k] in lines && Trim(NonBlank(lines)[k]) != ""
    ensures forall line :: line in lines && Trim(line) != "" ==> line in NonBlank(lines)
    decreases |lines|
  {
    if lines != [] {
      var init, last := lines[..|lines| - 1], lines[|lines| - 1];
      NonBlankKeepsNonBlank(init);
      assert lines == init + [last];
    }
  }

  /** Dropping blank lines before decoding changes nothing delivered. */
  lemma {:induction false} NonBlankPreservesDeltas(lines: seq<string>, parse: string -> EventParse)
    ensures LineDeltas(NonBlank(lines), parse) == LineDeltas(lines, parse)
    decreases |lines|
  {
    if lines != [] {
      var init, last := lines[..|lines| - 1], lines[|lines| - 1];
      NonBlankPreservesDeltas(init, parse);
      var kept := NonBlank(init);
      if Trim(last) != "" {
        assert NonBlank(lines) == kept + [last];
        assert (kept + [last])[..|kept|] == kept;
        assert LineDeltas(kept + [last], parse) == LineDeltas(kept, parse) + LineDelta(last, parse);
      } else {
        assert NonBlank(lines) == kept + [];
        assert kept + [] == kept;
        TrimEmptyIffBlank(last);
        BlankLineIgnored(last, parse);
      }
    }
  }

  /** The filter judges each line on its own, so it distributes over concatenation. */
  lemma {:induction false} NonBlankAppend(a: seq<string>, b: seq<string>)
    ensures NonBlank(a + b) == NonBlank(a) + NonBlank(b)
    decreases |b|
  {
    if b == [] {
      assert a + b == a;
    } else {
      var b' := b[..|b| - 1];
      assert (a + b)[..|a + b| - 1] == a + b';
      NonBlankAppend(a, b');
    }
  }

  // ---------------------------------------------------------------------------
  // Where the reads are cut
  // ---------------------------------------------------------------------------

  /** The read is empty or ends on a line boundary. */
  predicate EndsOnLineBoundary(chunk: string)
  {
    chunk == [] || chunk[|chunk| - 1] == '\n'
  }

  /** A read that ends on a line boundary contributes its own lines, and the
      lines of what follows are unaffected. */
  lemma ReadLinesAppendAtBoundary(a: string, b: string)
    requires EndsOnLineBoundary(a)
    ensures ReadLines(a + b) == ReadLines(a) + ReadLines(b)
  {
    assert Trim("") == "";
    if a == [] {
      assert a + b == b;
      assert ReadLines(a) == NonBlank([""]) == [];
    } else {
      var a' := a[..|a| - 1];
      assert a + b == a' + "\n" + b;
      assert a == a' + "\n" + "";
      SplitAppend(a', b);
      SplitAppend(a', "");
      NonBlankAppend(SplitLines(a'), SplitLines(b));
      NonBlankAppend(SplitLines(a'), [""]);
      assert NonBlank([""]) == [];
    }
  }

  /** Concatenated reads that each end on a line boundary end on one too. */
  lemma {:induction false} ConcatEndsOnLineBoundary(chunks: seq<string>)
    requires forall i :: 0 <= i < |chunks| ==> EndsOnLineBoundary(chunks[i])
    ensures EndsOnLineBoundary(Concat(chunks))
    decreases |chunks|
  {
    if chunks != [] {
      ConcatEndsOnLineBoundary(chunks[..|chunks| - 1]);
    }
  }

  /** When every read but the last ends on a line boundary, the body is
      decoded exactly as if it had arrived in a single read. */
  lemma {:induction false} AlignedReadsDecodeAsOne(chunks: seq<string>, parse: string -> EventParse)
    requires forall i :: 0 <= i < |chunks| - 1 ==> EndsOnLineBoundary(chunks[i])
    ensures StreamDeltas(chunks, parse) == StreamDeltas([Concat(chunks)], parse)
  {
    AlignedStreamLines(chunks);
    PerReadSingle(Concat(chunks), ReadLines);
  }

  /** One read contributes exactly what `f` gives for it. */
  lemma PerReadSingle(chunk: string, f: string -> seq<string>)
    ensures PerRead([chunk], f) == f(chunk)
  {
    assert [chunk][..0] == [];
  }

  lemma {:induction false} AlignedStreamLines(chunks: seq<string>)
    requires forall i :: 0 <= i < |chunks| - 1 ==> EndsOnLineBoundary(chunks[i])
    ensures StreamLines(chunks) == ReadLines(Concat(chunks))
    decreases |chunks|
  {
    if chunks == [] {
      assert Trim("") == "";
      assert ReadLines("") == NonBlank([""]) == [];
    } else {
      var init, last := chunks[..|chunks| - 1], chunks[|chunks| - 1];
      AlignedStreamLines(init);
      ConcatEndsOnLineBoundary(init);
      ReadLinesAppendAtBoundary(Concat(init), last);
    }
  }

  /** As written, a line cut between two reads is lost: a `data: ` line
      whose payload arrives in two pieces delivers its content when it comes
      in one read, and nothing when the first read ends inside the payload
      at a point where the first piece does not parse and the second is not
      a `data: ` line. */
  lemma StraddledLineIsLost(payload: string, cut: nat, text: string, parse: string -> EventParse)
    requires '\n' !in payload && cut <= |payload|
    requires parse(payload) == Parsed(Some(text)) && text != ""
    requires payload != DoneSentinel
    requires parse(payload[..cut]).Malformed?
    requires !(DataPrefix <= payload[cut..])
    ensures StreamDeltas([DataPrefix + payload], parse) == [text]
    ensures StreamDeltas([DataPrefix + payload[..cut], payload[cut..]], parse) == []
  {
    WholeLineDelivers(payload, text, parse);
    assert payload == payload[..cut] + payload[cut..];
    SplitLineDeliversNothing(payload[..cut], payload[cut..], parse);
  }

  /** A `data: ` line whose payload parses to non-empty content, read whole,
      delivers exactly that content. */
  lemma WholeLineDelivers(payload: string, text: string, parse: string -> EventParse)
    requires '\n' !in payload
    requires parse(payload) == Parsed(Some(text)) && text != ""
    requires payload != DoneSentinel
    ensures StreamDeltas([DataPrefix + payload], parse) == [text]
  {
    var whole := DataPrefix + payload;
    assert '\n' !in whole;
    SingleLineRead(whole);
    PerReadSingle(whole, ReadLines);
    EventLineDelivers(payload, text, parse);
    SingleLineDeltas(whole, parse);
    assert StreamDeltas([whole], parse) == LineDeltas([whole], parse);
  }

  /** A first read holding only the start of a `data: ` line, whose piece
      does not parse, followed by a read holding only the rest of that line,
      delivers nothing. */
  lemma SplitLineDeliversNothing(head: string, tail: string, parse: string -> EventParse)
    requires '\n' !in head && '\n' !in tail
    requires parse(head).Malformed?
    requires !(DataPrefix <= tail)
    ensures StreamDeltas([DataPrefix + head, tail], parse) == []
  {
    var first := DataPrefix + head;
    PerReadAppend([first], [tail], ReadLines);
    assert [first] + [tail] == [first, tail];
    PerReadSingle(first, ReadLines);
    PerReadSingle(tail, ReadLines);
    assert StreamLines([first, tail]) == ReadLines(first) + ReadLines(tail);
    LineDeltasAppend(ReadLines(first), ReadLines(tail), parse);
    UnparseableReadDeliversNothing(head, parse);
    NonDataReadDeliversNothing(tail, parse);
  }

  /** A read holding a single `data: ` line whose payload does not parse
      delivers nothing. */
  lemma UnparseableReadDeliversNothing(payload: string, parse: string -> EventParse)
    requires '\n' !in payload && parse(payload).Malformed?
    ensures LineDeltas(ReadLines(DataPrefix + payload), parse) == []
  {
    var line := DataPrefix + payload;
    assert '\n' !in line;
    assert line[|DataPrefix|..] == payload;
    assert LineDelta(line, parse) == [];
    SingleLineRead(line);
    SingleLineDeltas(line, parse);
  }

  /** A read holding a single line that is not a `data: ` line delivers nothing. */
  lemma NonDataReadDeliversNothing(chunk: string, parse: string -> EventParse)
    requires '\n' !in chunk && !(DataPrefix <= chunk)
    ensures LineDeltas(ReadLines(chunk), parse) == []
  {
    SplitNewlineFree(chunk);
    assert ReadLines(chunk) == NonBlank([chunk]);
    assert [chunk][..0] == [];
    assert LineDelta(chunk, parse) == [];
    if Trim(chunk) != "" {
      assert NonBlank([chunk]) == [] + [chunk];
      SingleLineDeltas(chunk, parse);
    } else {
      assert NonBlank([chunk]) == [] + [];
    }
  }

  /** The deltas of a single line are that line's delta. */
  lemma SingleLineDeltas(line: string, parse: string -> EventParse)
    ensures LineDeltas([line], parse) == LineDelta(line, parse)
  {
    assert [line][..0] == [];
  }

  /** A read holding one non-blank `data: ` line and nothing else. */
  lemma SingleLineRead(line: string)
    requires DataPrefix <= line && '\n' !in line
    ensures ReadLines(line) == [line]
  {
    SplitNewlineFree(line);
    TrimEmptyIffBlank(line);
    assert line[0] == DataPrefix[0];
    assert !IsWhitespace(line[0]);
    assert [line][..0] == [];
    assert NonBlank([line]) == NonBlank([]) + [line];
  }

  // ---------------------------------------------------------------------------
  // A worked stream
  // ---------------------------------------------------------------------------

  /** An event line followed by the blank line that ends the event adds
      exactly that line to the read's lines. */
  lemma EventBlockLines(line: string, rest: string)
    requires DataPrefix <= line && '\n' !in line
    ensures ReadLines(line + "\n\n" + rest) == [line] + ReadLines(rest)
  {
    assert line + "\n\n" + rest == line + "\n" + ("" + "\n" + rest);
    SplitAppend(line, "" + "\n" + rest);
    SplitAppend("", rest);
    SplitNewlineFree(line);
    var tail := SplitLines(rest);
    assert SplitLines(line + "\n\n" + rest) == [line] + ([""] + tail);
    NonBlankAppend([line], [""] + tail);
    NonBlankAppend([""], tail);
    SingleLineRead(line);
    assert NonBlank([line]) == [line];
    assert Trim("") == "";
    assert NonBlank([""]) == [];
    assert NonBlank([""] + tail) == NonBlank(tail);
    assert NonBlank([line] + ([""] + tail)) == [line] + NonBlank(tail);
  }

  /** Three event lines, each ended by a blank line, in one read. */
  lemma ThreeEventLines(l1: string, l2: string, l3: string)
    requires DataPrefix <= l1 && '\n' !in l1
    requires DataPrefix <= l2 && '\n' !in l2
    requires DataPrefix <= l3 && '\n' !in l3
    ensures ReadLines(l1 + "\n\n" + l2 + "\n\n" + l3 + "\n\n") == [l1, l2, l3]
  {
    var r3 := l3 + "\n\n" + "";
    var r2 := l2 + "\n\n" + r3;
    assert l1 + "\n\n" + l2 + "\n\n" + l3 + "\n\n" == l1 + "\n\n" + r2;
    EventBlockLines(l3, "");
    EventBlockLines(l2, r3);
    EventBlockLines(l1, r2);
    assert Trim("") == "";
    assert ReadLines("") == [];
  }

  /** One server-sent event carrying `payload`: its `data: ` line and the
      blank line that ends it. */
  function EventBlock(payload: string): string
  {
    DataPrefix + payload + "\n\n"
  }

  /** Two content events and the `[DONE]` sentinel in one read: `onChunk`
      receives the two contents in order. */
  lemma TwoEventsThenDone(e1: string, e2: string, t1: string, t2: string, parse: string -> EventParse)
    requires '\n' !in e1 && '\n' !in e2
    requires e1 != DoneSentinel && e2 != DoneSentinel
    requires parse(e1) == Parsed(Some(t1)) && t1 != ""
    requires parse(e2) == Parsed(Some(t2)) && t2 != ""
    ensures StreamDeltas([EventBlock(e1) + EventBlock(e2) + EventBlock(DoneSentinel)], parse) == [t1, t2]
  {
    var l1, l2, l3 := DataPrefix + e1, DataPrefix + e2, DataPrefix + DoneSentinel;
    var read := EventBlock(e1) + EventBlock(e2) + EventBlock(DoneSentinel);
    assert read == l1 + "\n\n" + l2 + "\n\n" + l3 + "\n\n";
    ThreeEventLines(l1, l2, l3);
    PerReadSingle(read, ReadLines);
    assert StreamLines([read]) == [l1, l2, l3];
    TwoContentLinesThenDone(e1, e2, t1, t2, parse);
    assert StreamDeltas([read], parse) == LineDeltas([l1, l2, l3], parse);
  }

  /** The lines of two content events and of `[DONE]` deliver the two contents. */
  lemma TwoContentLinesThenDone(e1: string, e2: string, t1: string, t2: string, parse: string -> EventParse)
    requires e1 != DoneSentinel && e2 != DoneSentinel
    requires parse(e1) == Parsed(Some(t1)) && t1 != ""
    requires parse(e2) == Parsed(Some(t2)) && t2 != ""
    ensures LineDeltas([DataPrefix + e1, DataPrefix + e2, DataPrefix + DoneSentinel], parse) == [t1, t2]
  {
    var l3 := DataPrefix + DoneSentinel;
    ThreeLineDeltas(DataPrefix + e1, DataPrefix + e2, l3, parse);
    EventLineDelivers(e1, t1, parse);
    EventLineDelivers(e2, t2, parse);
    assert ClassifyLine(l3, parse) == DoneMarker;
    assert [t1] + [t2] + [] == [t1, t2];
  }

  /** The deltas of three lines, one line at a time. */
  lemma ThreeLineDeltas(a: string, b: string, c: string, parse: string -> EventParse)
    ensures LineDeltas([a, b, c], parse) == LineDelta(a, parse) + LineDelta(b, parse) + LineDelta(c, parse)
  {
    assert [a, b, c][..2] == [a, b];
    assert [a, b][..1] == [a];
    assert [a][..0] == [];
    assert LineDeltas([a], parse) == [] + LineDelta(a, parse) == LineDelta(a, parse);
    assert LineDeltas([a, b], parse) == LineDelta(a, parse) + LineDelta(b, parse);
  }

  /** One `data: ` line whose payload parses to a non-empty content delivers it. */
  lemma EventLineDelivers(payload: string, text: string, parse: string -> EventParse)
    requires payload != DoneSentinel
    requires parse(payload) == Parsed(Some(text)) && text != ""
    ensures LineDelta(DataPrefix + payload, parse) == [text]
  {
    assert (DataPrefix + payload)[|DataPrefix|..] == payload;
  }
}
