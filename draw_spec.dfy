/** A reference definition of the lines the draw pass of drawWrappedTextCircle
    (CircleText.cpp) prints, written as recursive functions over the scan
    position; CircleText.DrawPass is proved to print exactly these. */
module DrawSpec {
  import opened Optional
  import opened Geometry
  import opened WordRuns
  import opened Gfx
  import opened CircleTextConfig
  import opened MeasureSpec

  /** How a step of the draw pass ends: the pass returns with the lines
      printed so far, the cursor row y it stopped on and the text next it
      refused because it would reach below bottomY (empty when the row under
      the cursor has no span); or it goes on with the cursor, the
      pending line and the lines printed so far. */
  datatype Turn = Ended(log: seq<Print>, y: int, next: string) | Going(y: int, line: string, log: seq<Print>)

  /** The draw pass's flush: an empty line changes nothing; a line that would
      reach below bottomY ends the pass; otherwise the line is printed at
      (xLeft, cursorY) and the cursor moves down by its height and the gap. */
  function FlushLine(m: Metrics, cfg: Config, xLeft: int, cursorY: int, line: string, log: seq<Print>): Turn
  {
    if line == [] then Going(cursorY, [], log)
    else if cursorY + LineHeight(m, cfg, line) > cfg.bottomY then Ended(log, cursorY, line)
    else Going(cursorY + LineHeight(m, cfg, line) + cfg.lineGap, [], log + [Print(xLeft, cursorY, line)])
  }

  /** The chunk loop from offset ws of a word too wide for its row: each chunk
      is printed on the row under the cursor; a row with no span or a refused
      chunk ends the pass. */
  function ChunkTurns(m: Metrics, cfg: Config, word: string, ws: nat, cursorY: int, log: seq<Print>): Turn
    requires ws <= |word|
    decreases |word| - ws
  {
    if ws == |word| then Going(cursorY, [], log)
    else
      match Row(cfg, cursorY)
      case None => Ended(log, cursorY, [])
      case Some(span) =>
        var n := FitCount(m, cfg.textSize, word[ws..], span.Width());
        match FlushLine(m, cfg, span.xLeft, cursorY, word[ws..ws + n], log)
        case Ended(l, y, next) => Ended(l, y, next)
        case Going(y, _, l) => ChunkTurns(m, cfg, word, ws + n, y, l)
  }

  /** One turn of the chunk loop at offset ws, spelled out: the loop ends
      where the row has no span or the chunk (never empty) would
      reach below bottomY; otherwise the chunk, the FitCount prefix of word[ws..], is
      never empty, fits the row or is a single character, is printed at the
      left end of the row, and the loop goes on after it one line lower. */
  lemma ChunkTurnsStep(m: Metrics, cfg: Config, word: string, ws: nat, cursorY: int, log: seq<Print>)
    returns (stop: bool, n: nat, span: Span, y: int, l: seq<Print>)
    requires ws < |word|
    ensures stop ==> ws + n <= |word| && ChunkTurns(m, cfg, word, ws, cursorY, log) == Ended(log, cursorY, word[ws..ws + n])
    ensures stop ==> (Row(cfg, cursorY).None? && n == 0) ||
                     (Row(cfg, cursorY) == Some(span) && ws < ws + n <= |word| &&
                      cursorY + m(word[ws..ws + n], cfg.textSize).h > cfg.bottomY)
    ensures !stop ==> Row(cfg, cursorY) == Some(span) && ws < ws + n <= |word|
    ensures !stop ==> m(word[ws..ws + n], cfg.textSize).w <= span.Width() || n == 1
    ensures !stop ==> cursorY + m(word[ws..ws + n], cfg.textSize).h <= cfg.bottomY
    ensures !stop ==> y == cursorY + m(word[ws..ws + n], cfg.textSize).h + cfg.lineGap
    ensures !stop ==> l == log + [Print(span.xLeft, cursorY, word[ws..ws + n])]
    ensures !stop ==> ChunkTurns(m, cfg, word, ws, cursorY, log) == ChunkTurns(m, cfg, word, ws + n, y, l)
  {
    stop, n, span, y, l := true, 0, Span(0, 0), cursorY, log;
    if Row(cfg, cursorY).Some? {
      span := Row(cfg, cursorY).value;
      var s := word[ws..];
      FitFromBounds(m, cfg.textSize, s, span.Width(), 0);
      n := FitCount(m, cfg.textSize, s, span.Width());
      assert s[..n] == word[ws..ws + n];
      var chunk := word[ws..ws + n];
      var h := m(chunk, cfg.textSize).h;
      stop, y, l := cursorY + h > cfg.bottomY, cursorY + h + cfg.lineGap, log + [Print(span.xLeft, cursorY, chunk)];
      assert FlushLine(m, cfg, span.xLeft, cursorY, chunk, log) ==
             if stop then Ended(log, cursorY, chunk) else Going(y, [], l);
    } else {
      assert word[ws..ws + n] == [];
    }
  }

  /** How breaking the line before a word ends: the pass returns on row y,
      having refused the text next as Turn.Ended does, or the word starts on
      the fresh row y, whose span is given. */
  datatype Break = Broken(log: seq<Print>, y: int, next: string) | Fresh(y: int, span: Span, log: seq<Print>)

  /** Breaking the line before a word that does not fit behind it: an empty
      line leaves the row as it is; otherwise the line is flushed and the row
      under the new cursor must still have a span. */
  function LineBreak(m: Metrics, cfg: Config, span: Span, cursorY: int, line: string, log: seq<Print>): Break
  {
    if line == [] then Fresh(cursorY, span, log)
    else
      match FlushLine(m, cfg, span.xLeft, cursorY, line, log)
      case Ended(l, y, next) => Broken(l, y, next)
      case Going(y, _, l) =>
        match Row(cfg, y)
        case None => Broken(l, y, [])
        case Some(s) => Fresh(y, s, l)
  }

  /** One word on the row span under the cursor: it joins the pending line if
      the two fit together; otherwise the line is broken, and the word starts
      the fresh row if it fits there, or is printed chunk by chunk. */
  function WordTurn(m: Metrics, cfg: Config, span: Span, word: string, cursorY: int, line: string,
                    log: seq<Print>): Turn
  {
    var candidate := if line != [] then line + " " + word else word;
    if m(candidate, cfg.textSize).w <= span.Width() then Going(cursorY, candidate, log)
    else
      match LineBreak(m, cfg, span, cursorY, line, log)
      case Broken(l, y, next) => Ended(l, y, next)
      case Fresh(y, s, l) =>
        if m(word, cfg.textSize).w <= s.Width() then Going(y, word, l)
        else ChunkTurns(m, cfg, word, 0, y, l)
  }

  /** A line break in the text: the pass ends on a row with no span or a
      refused flush; otherwise the line is flushed and the cursor moves down
      one more line gap. */
  function NewlineTurn(m: Metrics, cfg: Config, cursorY: int, line: string, log: seq<Print>): Turn
  {
    match Row(cfg, cursorY)
    case None => Ended(log, cursorY, [])
    case Some(span) =>
      match FlushLine(m, cfg, span.xLeft, cursorY, line, log)
      case Ended(l, y, next) => Ended(l, y, next)
      case Going(y, _, l) => Going(y + cfg.lineGap, [], l)
  }

  /** How the whole draw pass ends: it reaches the end of the text with the
      lines it printed, or it returns early on row y, as Turn.Ended does. */
  datatype Halt = Finished(log: seq<Print>) | Stopped(log: seq<Print>, y: int, next: string)

  /** At the end of the text a pending line is flushed on the row under the
      cursor when that row has a span. */
  function LastLine(m: Metrics, cfg: Config, cursorY: int, line: string, log: seq<Print>): Halt
  {
    if line == [] then Finished(log)
    else
      match Row(cfg, cursorY)
      case None => Stopped(log, cursorY, [])
      case Some(span) =>
        match FlushLine(m, cfg, span.xLeft, cursorY, line, log)
        case Ended(l, y, next) => Stopped(l, y, next)
        case Going(_, _, l) => Finished(l)
  }

  /** The draw pass from position p with the cursor at cursorY, line pending
      and log printed: how it ends, with the lines printed by then. */
  function DrawScan(m: Metrics, cfg: Config, text: string, p: nat, cursorY: int, line: string,
                    log: seq<Print>): Halt
    requires p <= |text|
    decreases |text| - p
  {
    var q := SpacesEnd(text, p);
    if q == |text| then LastLine(m, cfg, cursorY, line, log)
    else if text[q] == '\n' then
      match NewlineTurn(m, cfg, cursorY, line, log)
      case Ended(l, y, next) => Stopped(l, y, next)
      case Going(y, ln, l) => DrawScan(m, cfg, text, q + 1, y, ln, l)
    else
      match Row(cfg, cursorY)
      case None => Stopped(log, cursorY, [])
      case Some(span) =>
        var e := WordStop(text, q);
        match WordTurn(m, cfg, span, text[q..e], cursorY, line, log)
        case Ended(l, y, next) => Stopped(l, y, next)
        case Going(y, ln, l) => DrawScan(m, cfg, text, e, y, ln, l)
  }

  /** The draw pass skips the spaces before a line break or a word. */
  lemma DrawScanSkips(m: Metrics, cfg: Config, text: string, p: nat, cursorY: int, line: string, log: seq<Print>)
    requires p <= |text|
    ensures DrawScan(m, cfg, text, SpacesEnd(text, p), cursorY, line, log) == DrawScan(m, cfg, text, p, cursorY, line, log)
  {
    var q := SpacesEnd(text, p);
    assert SpacesEnd(text, q) == q;
  }

  /** The draw pass at a line break q, spelled out. */
  lemma DrawScanAtNewline(m: Metrics, cfg: Config, text: string, q: nat, cursorY: int, line: string,
                          log: seq<Print>)
    requires q < |text| && text[q] == '\n'
    ensures var t := NewlineTurn(m, cfg, cursorY, line, log);
      && (t.Ended? ==> DrawScan(m, cfg, text, q, cursorY, line, log) == Stopped(t.log, t.y, t.next))
      && (t.Going? ==> DrawScan(m, cfg, text, q, cursorY, line, log) == DrawScan(m, cfg, text, q + 1, t.y, t.line, t.log))
  {
    assert SpacesEnd(text, q) == q;
  }

  /** The draw pass at the word that starts at q, spelled out. */
  lemma DrawScanAtWord(m: Metrics, cfg: Config, text: string, q: nat, cursorY: int, line: string,
                       log: seq<Print>)
    requires q < |text| && !IsSep(text[q])
    ensures Row(cfg, cursorY).None? ==> DrawScan(m, cfg, text, q, cursorY, line, log) == Stopped(log, cursorY, [])
    ensures Row(cfg, cursorY).Some? ==>
      var e := WordStop(text, q);
      var t := WordTurn(m, cfg, Row(cfg, cursorY).value, text[q..e], cursorY, line, log);
      && (t.Ended? ==> DrawScan(m, cfg, text, q, cursorY, line, log) == Stopped(t.log, t.y, t.next))
      && (t.Going? ==> DrawScan(m, cfg, text, q, cursorY, line, log) == DrawScan(m, cfg, text, e, t.y, t.line, t.log))
  {
    assert SpacesEnd(text, q) == q;
  }

  /** How the draw pass ends when it starts on row startY. */
  function DrawEnd(m: Metrics, cfg: Config, text: string, startY: int): Halt
  {
    DrawScan(m, cfg, text, 0, startY, [], [])
  }

  /** The lines the draw pass prints when it starts on row startY. */
  function DrawnLines(m: Metrics, cfg: Config, text: string, startY: int): seq<Print>
  {
    DrawEnd(m, cfg, text, startY).log
  }
}
