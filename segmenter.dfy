/**
 * `extract_entities_from_pdf`: a walk over the layout tree of a PDF (pages,
 * blocks, lines, spans) that cuts the hearing section into entity blocks.
 * A span mentioning "Transactional Hearing" switches collection on, one
 * mentioning "Non-Hearing Transactions" switches it off and abandons the rest
 * of its line, and while collection is on every other non-blank span is
 * kept; a numbered span set in the heading font (flags exactly 20) starts a
 * new entity. Each entity is its spans and the PDF's base name, joined by
 * line feeds.
 */
module Segmenter {
  import opened Options
  import opened Text
  import opened Paths

  // ---------------------------------------------------------------------
  // The layout tree
  // ---------------------------------------------------------------------

  datatype Span = Span(text: string, flags: int)
  datatype Line = Line(spans: seq<Span>)
  /** `kind` is the block's `type`; only text blocks (type 0) are read. */
  datatype Block = Block(kind: int, lines: seq<Line>)
  datatype Page = Page(blocks: seq<Block>)
  type Document = seq<Page>

  const StartMarker := "Transactional Hearing"
  const StopMarker := "Non-Hearing Transactions"
  /** The span flags of the bold heading font. */
  const HeadingFlags := 20

  // ---------------------------------------------------------------------
  // The heading pattern: re.match(r'^\d+\.?\s+.*', text)
  // ---------------------------------------------------------------------

  /** The pattern matches with `\d+` taking `a` characters and `\.?` taking
      `b`; `\s+` needs at least one whitespace character after them. */
  predicate NumberedHeadingSplit(t: string, a: nat, b: nat) {
    && 1 <= a && b <= 1 && a + b < |t|
    && (forall k :: 0 <= k < a ==> IsDigit(t[k]))
    && (b == 1 ==> t[a] == '.')
    && IsSpace(t[a + b])
  }

  /** The matcher: the digit run, then an optional dot, then whitespace. */
  predicate IsNumberedHeading(t: string) {
    var d := DigitRun(t, 0);
    && d >= 1
    && ((d < |t| && IsSpace(t[d])) || (d + 1 < |t| && t[d] == '.' && IsSpace(t[d + 1])))
  }

  /** The matcher accepts exactly the texts the pattern matches. */
  lemma NumberedHeadingIff(t: string)
    ensures IsNumberedHeading(t) <==> exists a: nat, b: nat :: NumberedHeadingSplit(t, a, b)
  {
    var d := DigitRun(t, 0);
    DigitRunIsRun(t, 0);
    if IsNumberedHeading(t) {
      if d < |t| && IsSpace(t[d]) {
        assert NumberedHeadingSplit(t, d, 0);
      } else {
        assert NumberedHeadingSplit(t, d, 1);
      }
    } else {
      forall a: nat, b: nat ensures !NumberedHeadingSplit(t, a, b) {
        if 1 <= a && b <= 1 && a + b < |t| && (forall k :: 0 <= k < a ==> IsDigit(t[k])) {
          DigitRunMaximal(t, 0, a);
          if a < d {
            assert IsDigit(t[a]);
          } else {
            assert a == d;
          }
        }
      }
    }
  }

  // ---------------------------------------------------------------------
  // The walk, as a specification: which spans are kept
  // ---------------------------------------------------------------------

  /** A kept span: its stripped text and its font flags. */
  datatype Piece = Piece(text: string, flags: int)

  /** A kept span that opens a new entity. */
  predicate Starts(p: Piece) {
    IsNumberedHeading(p.text) && p.flags == HeadingFlags
  }

  /** The walk's state: whether collection is on, and the spans kept so far. */
  datatype Cursor = Cursor(collecting: bool, pieces: seq<Piece>)

  /** The loop body for one span; the flag says the rest of the line is
      abandoned. */
  function SpanStep(c: Cursor, span: Span): (Cursor, bool) {
    var t := Strip(span.text);
    if t == [] then (c, false)
    else if Contains(t, StartMarker) then (Cursor(true, c.pieces), false)
    else if Contains(t, StopMarker) then (Cursor(false, c.pieces), true)
    else if c.collecting then (Cursor(true, c.pieces + [Piece(t, span.flags)]), false)
    else (c, false)
  }

  function ScanSpans(c: Cursor, spans: seq<Span>): Cursor
    decreases |spans|
  {
    if spans == [] then c
    else
      var (next, stop) := SpanStep(c, spans[0]);
      if stop then next else ScanSpans(next, spans[1..])
  }

  function ScanLines(c: Cursor, lines: seq<Line>): Cursor
    decreases |lines|
  {
    if lines == [] then c else ScanLines(ScanSpans(c, lines[0].spans), lines[1..])
  }

  function ScanBlocks(c: Cursor, blocks: seq<Block>): Cursor
    decreases |blocks|
  {
    if blocks == [] then c
    else ScanBlocks(if blocks[0].kind == 0 then ScanLines(c, blocks[0].lines) else c, blocks[1..])
  }

  function ScanPages(c: Cursor, pages: seq<Page>): Cursor
    decreases |pages|
  {
    if pages == [] then c else ScanPages(ScanBlocks(c, pages[0].blocks), pages[1..])
  }

  /** The spans the walk keeps from a whole document, in reading order. */
  function Collect(doc: Document): seq<Piece> {
    ScanPages(Cursor(false, []), doc).pieces
  }

  // ---------------------------------------------------------------------
  // Cutting the kept spans into entities
  // ---------------------------------------------------------------------

  /** The kept spans, cut before every span that starts an entity. */
  function Groups(ps: seq<Piece>): (r: seq<seq<Piece>>)
    ensures forall i :: 0 <= i < |r| ==> r[i] != []
    ensures r == [] <==> ps == []
  {
    if ps == [] then []
    else
      var g := Groups(ps[..|ps| - 1]);
      var p := ps[|ps| - 1];
      if g == [] || Starts(p) then g + [[p]]
      else g[..|g| - 1] + [g[|g| - 1] + [p]]
  }

  function Texts(g: seq<Piece>): (r: seq<string>)
    ensures |r| == |g|
  {
    seq(|g|, i requires 0 <= i < |g| => g[i].text)
  }

  /** One entity: its lines and the file name, joined by line feeds. */
  function Finish(lines: seq<string>, name: string): string {
    Join(lines + [name], "\n")
  }

  function Finished(gs: seq<seq<Piece>>, name: string): (r: seq<string>)
    ensures |r| == |gs|
  {
    seq(|gs|, i requires 0 <= i < |gs| => Finish(Texts(gs[i]), name))
  }

  /** The entities `extract_entities_from_pdf` returns for `doc`, whose file
      has base name `name`. */
  function Segment(doc: Document, name: string): seq<string> {
    Finished(Groups(Collect(doc)), name)
  }

  // ---------------------------------------------------------------------
  // The method
  // ---------------------------------------------------------------------

  /** How the method's `entities` and `current_entity_lines` stand to the
      spans kept so far: every group but the last is finished, and the last
      is the entity being built. */
  predicate Tie(entities: seq<string>, current: seq<string>, pieces: seq<Piece>, name: string) {
    var g := Groups(pieces);
    if g == [] then entities == [] && current == []
    else current == Texts(g[|g| - 1]) && entities == Finished(g[..|g| - 1], name)
  }

  lemma GroupsSnoc(pieces: seq<Piece>, p: Piece)
    ensures var g := Groups(pieces);
      Groups(pieces + [p]) == if g == [] || Starts(p) then g + [[p]] else g[..|g| - 1] + [g[|g| - 1] + [p]]
  {
    var ps := pieces + [p];
    assert ps[..|ps| - 1] == pieces;
  }

  lemma FinishedSnoc(gs: seq<seq<Piece>>, g: seq<Piece>, name: string)
    ensures Finished(gs + [g], name) == Finished(gs, name) + [Finish(Texts(g), name)]
  {
  }

  lemma TextsSnoc(g: seq<Piece>, p: Piece)
    ensures Texts(g + [p]) == Texts(g) + [p.text]
  {
  }

  /** Keeping one more span moves the method's lists as the cut demands. */
  lemma TieAppend(entities: seq<string>, current: seq<string>, pieces: seq<Piece>, name: string, p: Piece)
    requires Tie(entities, current, pieces, name)
    ensures Starts(p) && current != [] ==> Tie(entities + [Finish(current, name)], [p.text], pieces + [p], name)
    ensures !(Starts(p) && current != []) ==> Tie(entities, current + [p.text], pieces + [p], name)
  {
    var g := Groups(pieces);
    var g' := Groups(pieces + [p]);
    GroupsSnoc(pieces, p);
    assert Texts([p]) == [p.text];
    if g == [] {
      assert g' == [[p]];
    } else {
      var last := g[|g| - 1];
      assert last != [];
      if Starts(p) {
        assert g'[..|g'| - 1] == g;
        assert g == g[..|g| - 1] + [last];
        FinishedSnoc(g[..|g| - 1], last, name);
      } else {
        assert g'[..|g'| - 1] == g[..|g| - 1];
        TextsSnoc(last, p);
      }
    }
  }

  /** At the end the entity being built is finished too. */
  lemma TieClose(entities: seq<string>, current: seq<string>, pieces: seq<Piece>, name: string)
    requires Tie(entities, current, pieces, name)
    ensures (if current != [] then entities + [Finish(current, name)] else entities) == Finished(Groups(pieces), name)
  {
    var g := Groups(pieces);
    if g != [] {
      assert g == g[..|g| - 1] + [g[|g| - 1]];
      assert Finished(g, name) == Finished(g[..|g| - 1], name) + [Finish(Texts(g[|g| - 1]), name)];
    }
  }

  /** The body of the loop over the spans of one line in
      `extract_entities_from_pdf`: it moves the collection flag and the
      entity lists as one step of the walk moves the cursor, and says whether
      the rest of the line is abandoned. */
  method TakeSpan(span: Span, collecting: bool, entities: seq<string>, current: seq<string>,
                  ghost pieces: seq<Piece>, fileName: string)
    returns (collecting': bool, entities': seq<string>, current': seq<string>, ghost pieces': seq<Piece>, stop: bool)
    requires Tie(entities, current, pieces, fileName)
    ensures (Cursor(collecting', pieces'), stop) == SpanStep(Cursor(collecting, pieces), span)
    ensures Tie(entities', current', pieces', fileName)
  {
    collecting', entities', current', pieces', stop := collecting, entities, current, pieces, false;
    var spanText := Strip(span.text);
    if spanText == [] {
      return;
    }
    if Contains(spanText, StartMarker) {
      collecting' := true;
      return;
    }
    if Contains(spanText, StopMarker) {
      collecting' := false;
      stop := true;
      return;
    }
    if collecting {
      entities', current', pieces' := KeepSpan(spanText, span.flags, entities, current, pieces, fileName);
    }
  }

  /** A kept span: a numbered span in the heading font finishes the entity
      being built and opens the next one; any other span extends it. */
  method KeepSpan(spanText: string, flags: int, entities: seq<string>, current: seq<string>,
                  ghost pieces: seq<Piece>, fileName: string)
    returns (entities': seq<string>, current': seq<string>, ghost pieces': seq<Piece>)
    requires Tie(entities, current, pieces, fileName)
    ensures pieces' == pieces + [Piece(spanText, flags)]
    ensures Tie(entities', current', pieces', fileName)
  {
    var p := Piece(spanText, flags);
    TieAppend(entities, current, pieces, fileName, p);
    entities', current' := entities, current;
    if IsNumberedHeading(spanText) && flags == HeadingFlags {
      assert Starts(p);
      if current' != [] {
        entities' := entities' + [Finish(current', fileName)];
        current' := [];
      }
      current' := current' + [spanText];
    } else {
      assert !Starts(p);
      current' := current' + [spanText];
    }
    pieces' := pieces + [p];
  }

  /** The loop over the spans of one line in `extract_entities_from_pdf`. */
  method WalkLine(spans: seq<Span>, collecting: bool, entities: seq<string>, current: seq<string>,
                  ghost pieces: seq<Piece>, fileName: string)
    returns (collecting': bool, entities': seq<string>, current': seq<string>, ghost pieces': seq<Piece>)
    requires Tie(entities, current, pieces, fileName)
    ensures Cursor(collecting', pieces') == ScanSpans(Cursor(collecting, pieces), spans)
    ensures Tie(entities', current', pieces', fileName)
  {
    collecting', entities', current', pieces' := collecting, entities, current, pieces;
    ghost var goal := ScanSpans(Cursor(collecting, pieces), spans);
    var s := 0;
    while s < |spans|
      invariant s <= |spans|
      invariant ScanSpans(Cursor(collecting', pieces'), spans[s..]) == goal
      invariant Tie(entities', current', pieces', fileName)
    {
      assert spans[s..][1..] == spans[s + 1..];
      ghost var before := Cursor(collecting', pieces');
      assert ScanSpans(before, spans[s..]) == goal;
      var stop;
      collecting', entities', current', pieces', stop := TakeSpan(spans[s], collecting', entities', current', pieces', fileName);
      if stop {
        assert goal == Cursor(collecting', pieces');
        break;
      }
      s := s + 1;
    }
  }

  /** `extract_entities_from_pdf`: `None` when the PDF cannot be opened (the
      process exits), otherwise the entities of the document. */
  method ExtractEntities(pdf: Option<Document>, pdfPath: string) returns (r: Option<seq<string>>)
    ensures pdf.None? ==> r.None?
    ensures pdf.Some? ==> r == Some(Segment(pdf.value, Basename(pdfPath)))
  {
    if pdf.None? {
      return None;
    }
    var doc := pdf.value;
    var fileName := Basename(pdfPath);
    var entities: seq<string> := [];
    var current: seq<string> := [];
    var collecting := false;
    ghost var pieces: seq<Piece> := [];
    ghost var goal := ScanPages(Cursor(false, []), doc);

    for pageNum := 0 to |doc|
      invariant ScanPages(Cursor(collecting, pieces), doc[pageNum..]) == goal
      invariant Tie(entities, current, pieces, fileName)
    {
      var page := doc[pageNum];
      assert doc[pageNum..][1..] == doc[pageNum + 1..];
      for b := 0 to |page.blocks|
        invariant ScanPages(ScanBlocks(Cursor(collecting, pieces), page.blocks[b..]), doc[pageNum + 1..]) == goal
        invariant Tie(entities, current, pieces, fileName)
      {
        var block := page.blocks[b];
        assert page.blocks[b..][1..] == page.blocks[b + 1..];
        if block.kind == 0 {
          for l := 0 to |block.lines|
            invariant ScanPages(ScanBlocks(ScanLines(Cursor(collecting, pieces), block.lines[l..]), page.blocks[b + 1..]), doc[pageNum + 1..]) == goal
            invariant Tie(entities, current, pieces, fileName)
          {
            assert block.lines[l..][1..] == block.lines[l + 1..];
            collecting, entities, current, pieces := WalkLine(block.lines[l].spans, collecting, entities, current, pieces, fileName);
          }
        }
      }
    }

    TieClose(entities, current, pieces, fileName);
    if current != [] {
      entities := entities + [Finish(current, fileName)];
    }
    r := Some(entities);
  }

  // ---------------------------------------------------------------------
  // What the segmentation promises
  // ---------------------------------------------------------------------

  /** An entity is its lines, a line feed and the file name. */
  lemma FinishEndsWithName(lines: seq<string>, name: string)
    requires lines != []
    ensures Finish(lines, name) == Join(lines, "\n") + "\n" + name
  {
    var all := lines + [name];
    assert all[..|all| - 1] == lines;
  }

  lemma EndsWithName(body: string, name: string)
    ensures var e := body + "\n" + name; |e| > |name| && e[|e| - |name| - 1..] == "\n" + name
  {
    var e := body + "\n" + name;
    assert e == body + ("\n" + name);
  }

  /** Every entity ends with a line feed and the file name, after the lines
      of one group of kept spans. */
  lemma EntitiesEndWithName(doc: Document, name: string)
    ensures var g := Groups(Collect(doc));
      forall i :: 0 <= i < |g| ==>
        Segment(doc, name)[i] == Join(Texts(g[i]), "\n") + "\n" + name
    ensures forall e :: e in Segment(doc, name) ==> |e| > |name| && e[|e| - |name| - 1..] == "\n" + name
  {
    var g := Groups(Collect(doc));
    forall i | 0 <= i < |g|
      ensures Segment(doc, name)[i] == Join(Texts(g[i]), "\n") + "\n" + name
    {
      FinishEndsWithName(Texts(g[i]), name);
    }
    forall e | e in Segment(doc, name)
      ensures |e| > |name| && e[|e| - |name| - 1..] == "\n" + name
    {
      var i :| 0 <= i < |g| && e == Segment(doc, name)[i];
      EndsWithName(Join(Texts(g[i]), "\n"), name);
    }
  }

  function Flatten(gs: seq<seq<Piece>>): seq<Piece> {
    if gs == [] then [] else Flatten(gs[..|gs| - 1]) + gs[|gs| - 1]
  }

  lemma FlattenSnoc(gs: seq<seq<Piece>>, g: seq<Piece>)
    ensures Flatten(gs + [g]) == Flatten(gs) + g
  {
    var all := gs + [g];
    assert all[..|all| - 1] == gs;
  }

  /** The groups, in order, give back every kept span. */
  lemma {:induction false} GroupsFlatten(ps: seq<Piece>)
    ensures Flatten(Groups(ps)) == ps
  {
    if ps != [] {
      var init := ps[..|ps| - 1];
      var p := ps[|ps| - 1];
      assert ps == init + [p];
      GroupsFlatten(init);
      GroupsSnoc(init, p);
      var g := Groups(init);
      if g == [] || Starts(p) {
        FlattenSnoc(g, [p]);
      } else {
        var last := g[|g| - 1];
        assert g == g[..|g| - 1] + [last];
        FlattenSnoc(g[..|g| - 1], last);
        FlattenSnoc(g[..|g| - 1], last + [p]);
      }
    }
  }

  /** Every group after the first opens with a span that starts an entity,
      and no span inside a group starts one. */
  lemma {:induction false} GroupsCutAtStarts(ps: seq<Piece>)
    ensures forall i :: 0 < i < |Groups(ps)| ==> Starts(Groups(ps)[i][0])
    ensures forall i, j :: 0 <= i < |Groups(ps)| && 0 < j < |Groups(ps)[i]| ==> !Starts(Groups(ps)[i][j])
  {
    if ps != [] {
      var init := ps[..|ps| - 1];
      var p := ps[|ps| - 1];
      GroupsCutAtStarts(init);
      var g := Groups(init);
      var g' := Groups(ps);
      if g == [] || Starts(p) {
        assert g' == g + [[p]];
        assert forall i :: 0 <= i < |g| ==> g'[i] == g[i];
      } else {
        var last := g[|g| - 1];
        var grown := last + [p];
        assert g' == g[..|g| - 1] + [grown];
        assert forall i :: 0 <= i < |g| - 1 ==> g'[i] == g[i];
        forall j | 0 < j < |grown|
          ensures !Starts(grown[j])
        {
          if j < |last| {
            assert grown[j] == last[j];
          }
        }
      }
    }
  }

  /** What every kept span looks like: non-empty, stripped, and mentioning
      neither marker. */
  predicate GoodPiece(p: Piece) {
    p.text != [] && IsStripped(p.text) && !Contains(p.text, StartMarker) && !Contains(p.text, StopMarker)
  }

  predicate AllGood(ps: seq<Piece>) {
    forall k :: 0 <= k < |ps| ==> GoodPiece(ps[k])
  }

  lemma {:induction false} ScanSpansKeeps(c: Cursor, spans: seq<Span>)
    requires AllGood(c.pieces)
    ensures AllGood(ScanSpans(c, spans).pieces)
    ensures c.pieces <= ScanSpans(c, spans).pieces
    decreases |spans|
  {
    if spans != [] {
      var (next, stop) := SpanStep(c, spans[0]);
      SpanStepKeeps(c, spans[0]);
      if !stop {
        ScanSpansKeeps(next, spans[1..]);
      }
    }
  }

  /** One step keeps at most one span, and a good one. */
  lemma SpanStepKeeps(c: Cursor, span: Span)
    requires AllGood(c.pieces)
    ensures AllGood(SpanStep(c, span).0.pieces)
    ensures c.pieces <= SpanStep(c, span).0.pieces
  {
    var t := Strip(span.text);
    if t != [] && !Contains(t, StartMarker) && !Contains(t, StopMarker) && c.collecting {
      assert GoodPiece(Piece(t, span.flags));
      AllGoodSnoc(c.pieces, Piece(t, span.flags));
    }
  }

  lemma AllGoodSnoc(ps: seq<Piece>, p: Piece)
    requires AllGood(ps) && GoodPiece(p)
    ensures AllGood(ps + [p])
  {
    var qs := ps + [p];
    assert forall k :: 0 <= k < |ps| ==> qs[k] == ps[k];
  }

  lemma {:induction false} ScanLinesKeeps(c: Cursor, lines: seq<Line>)
    requires AllGood(c.pieces)
    ensures AllGood(ScanLines(c, lines).pieces)
    ensures c.pieces <= ScanLines(c, lines).pieces
    decreases |lines|
  {
    if lines != [] {
      ScanSpansKeeps(c, lines[0].spans);
      ScanLinesKeeps(ScanSpans(c, lines[0].spans), lines[1..]);
    }
  }

  lemma {:induction false} ScanBlocksKeeps(c: Cursor, blocks: seq<Block>)
    requires AllGood(c.pieces)
    ensures AllGood(ScanBlocks(c, blocks).pieces)
    ensures c.pieces <= ScanBlocks(c, blocks).pieces
    decreases |blocks|
  {
    if blocks != [] {
      var next := if blocks[0].kind == 0 then ScanLines(c, blocks[0].lines) else c;
      ScanLinesKeeps(c, blocks[0].lines);
      ScanBlocksKeeps(next, blocks[1..]);
    }
  }

  lemma {:induction false} ScanPagesKeeps(c: Cursor, pages: seq<Page>)
    requires AllGood(c.pieces)
    ensures AllGood(ScanPages(c, pages).pieces)
    ensures c.pieces <= ScanPages(c, pages).pieces
    decreases |pages|
  {
    if pages != [] {
      ScanBlocksKeeps(c, pages[0].blocks);
      ScanPagesKeeps(ScanBlocks(c, pages[0].blocks), pages[1..]);
    }
  }

  /** The entities of a document hold, between them, exactly its kept spans
      in order, each non-empty, stripped and free of both markers; an entity
      other than the first begins at a numbered span with flags 20, and no
      other span of an entity is one. */
  lemma SegmentedSpans(doc: Document)
    ensures AllGood(Collect(doc))
    ensures Flatten(Groups(Collect(doc))) == Collect(doc)
    ensures forall i :: 0 < i < |Groups(Collect(doc))| ==> Starts(Groups(Collect(doc))[i][0])
    ensures forall i, j :: 0 <= i < |Groups(Collect(doc))| && 0 < j < |Groups(Collect(doc))[i]| ==> !Starts(Groups(Collect(doc))[i][j])
  {
    ScanPagesKeeps(Cursor(false, []), doc);
    GroupsFlatten(Collect(doc));
    GroupsCutAtStarts(Collect(doc));
  }

  /** The stripped text of the span mentions the start marker. */
  predicate OpensSection(span: Span) {
    Contains(Strip(span.text), StartMarker)
  }

  predicate QuietSpans(spans: seq<Span>) {
    forall k :: 0 <= k < |spans| ==> !OpensSection(spans[k])
  }

  predicate QuietLines(lines: seq<Line>) {
    forall k :: 0 <= k < |lines| ==> QuietSpans(lines[k].spans)
  }

  predicate QuietBlocks(blocks: seq<Block>) {
    forall k :: 0 <= k < |blocks| ==> QuietLines(blocks[k].lines)
  }

  /** No span anywhere in the document mentions "Transactional Hearing". */
  predicate QuietDocument(doc: Document) {
    forall k :: 0 <= k < |doc| ==> QuietBlocks(doc[k].blocks)
  }

  lemma {:induction false} QuietSpansKeepOff(ps: seq<Piece>, spans: seq<Span>)
    requires QuietSpans(spans)
    ensures ScanSpans(Cursor(false, ps), spans) == Cursor(false, ps)
    decreases |spans|
  {
    if spans != [] {
      assert !OpensSection(spans[0]);
      QuietSpansKeepOff(ps, spans[1..]);
    }
  }

  lemma {:induction false} QuietLinesKeepOff(ps: seq<Piece>, lines: seq<Line>)
    requires QuietLines(lines)
    ensures ScanLines(Cursor(false, ps), lines) == Cursor(false, ps)
    decreases |lines|
  {
    if lines != [] {
      QuietSpansKeepOff(ps, lines[0].spans);
      QuietLinesKeepOff(ps, lines[1..]);
    }
  }

  lemma {:induction false} QuietBlocksKeepOff(ps: seq<Piece>, blocks: seq<Block>)
    requires QuietBlocks(blocks)
    ensures ScanBlocks(Cursor(false, ps), blocks) == Cursor(false, ps)
    decreases |blocks|
  {
    if blocks != [] {
      QuietLinesKeepOff(ps, blocks[0].lines);
      QuietBlocksKeepOff(ps, blocks[1..]);
    }
  }

  lemma {:induction false} QuietPagesKeepOff(ps: seq<Piece>, pages: seq<Page>)
    requires QuietDocument(pages)
    ensures ScanPages(Cursor(false, ps), pages) == Cursor(false, ps)
    decreases |pages|
  {
    if pages != [] {
      QuietBlocksKeepOff(ps, pages[0].blocks);
      QuietPagesKeepOff(ps, pages[1..]);
    }
  }

  /** Without a "Transactional Hearing" span there are no entities. */
  lemma NoSectionNoEntities(doc: Document, name: string)
    requires QuietDocument(doc)
    ensures Segment(doc, name) == []
  {
    QuietPagesKeepOff([], doc);
  }
}
