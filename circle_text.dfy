/** The circle-constrained word wrapper of CircleText.cpp: a measure pass that
    finds the height of the wrapped block, the choice of the start row from
    that height and the alignment, and a draw pass that prints the lines into
    the band. Both passes read words greedily, break lines where the next word
    no longer fits the current row, and cut a word that does not fit a fresh
    row into chunks. */
module CircleText {
  import opened Optional
  import opened Geometry
  import opened WordRuns
  import opened Gfx
  import opened CircleTextConfig
  import opened MeasureSpec
  import opened DrawSpec

  /** The height the source derives from measuring "Ay": the measured height
      when positive, 8 pixels otherwise. */
  function TextLineHeight(m: Metrics, size: nat): (h: int)
    ensures h > 0
    ensures m("Ay", size).h > 0 ==> h == m("Ay", size).h
    ensures m("Ay", size).h == 0 ==> h == 8
  {
    var sz := m("Ay", size);
    if sz.h > 0 then sz.h else 8
  }

  /** How many leading characters of s go on a row of width maxW: prefixes are
      measured one character longer at a time until one is wider than maxW,
      the string ends or the buffer is full. A lone first character that is
      already too wide is still taken, so a chunk is never empty. */
  method FitChars(m: Metrics, size: nat, s: string, maxW: int) returns (n: nat)
    ensures s == [] ==> n == 0
    ensures s != [] ==> 1 <= n <= |s| && n <= TmpCapacity - 1
    ensures s != [] && m(s[..1], size).w > maxW ==> n == 1
    ensures s != [] && m(s[..1], size).w <= maxW ==>
              (forall k :: 1 <= k <= n ==> m(s[..k], size).w <= maxW) &&
              (n == |s| || n == TmpCapacity - 1 || m(s[..n + 1], size).w > maxW)
    ensures n == FitCount(m, size, s, maxW)
  {
    var tmp := new char[TmpCapacity];
    n := 0;
    while n < |s| && n < tmp.Length - 1
      invariant n <= |s| && n <= tmp.Length - 1
      invariant tmp[..n] == s[..n]
      invariant forall k :: 1 <= k <= n ==> m(s[..k], size).w <= maxW
      invariant FitFrom(m, size, s, maxW, n) == FitCount(m, size, s, maxW)
    {
      tmp[n] := s[n];
      // The terminator written after tmp[n] makes tmp[..n + 1] the measured string.
      assert tmp[..n + 1] == s[..n + 1];
      var sz := m(tmp[..n + 1], size);
      if sz.w > maxW {
        return if n == 0 then 1 else n;
      }
      n := n + 1;
    }
  }

  /** The measure pass's line flush: an empty line changes nothing; otherwise
      the cursor moves down by the line's height and the line gap, the line is
      cleared, and the result says whether the cursor is still inside the band. */
  method MeasureFlush(m: Metrics, cfg: Config, cursorY: int, line: string)
    returns (ok: bool, y: int, rest: string)
    ensures rest == []
    ensures line == [] ==> ok && y == cursorY
    ensures line != [] ==> y == cursorY + m(line, cfg.textSize).h + cfg.lineGap && ok == (y <= cfg.bottomY)
  {
    if |line| == 0 {
      return true, cursorY, line;
    }
    var sz := m(line, cfg.textSize);
    y := cursorY + sz.h + cfg.lineGap;
    rest := [];
    ok := y <= cfg.bottomY;
  }

  /** Both passes skip the spaces before a word or a line break. */
  method SkipSpaces(text: string, p: nat) returns (q: nat)
    requires p <= |text|
    ensures q == SpacesEnd(text, p)
    ensures p <= q <= |text| && (q == |text| || text[q] != ' ')
    ensures forall j :: p <= j < q ==> text[j] == ' '
  {
    q := p;
    while q < |text| && text[q] == ' '
      invariant p <= q <= |text|
      invariant forall j :: p <= j < q ==> text[j] == ' '
      invariant SpacesEnd(text, q) == SpacesEnd(text, p)
    {
      q := q + 1;
    }
  }

  /** Both passes read a word up to the next space, line break or the end of
      the text. */
  method WordEnd(text: string, start: nat) returns (p: nat)
    requires start <= |text|
    ensures p == WordStop(text, start)
    ensures start <= p <= |text| && (p == |text| || IsSep(text[p]))
    ensures forall j :: start <= j < p ==> !IsSep(text[j])
    ensures start < |text| && !IsSep(text[start]) ==> start < p
  {
    p := start;
    while p < |text| && !IsSep(text[p])
      invariant start <= p <= |text|
      invariant forall j :: start <= j < p ==> !IsSep(text[j])
      invariant WordStop(text, p) == WordStop(text, start)
    {
      p := p + 1;
    }
  }

  /** The chunk loop of the measure pass: a word that fits no row is cut into
      chunks, each flushed on the row under the cursor (Chunks). */
  method MeasureChunks(m: Metrics, cfg: Config, word: string, cursorY: int) returns (y: int)
    ensures y == Chunks(m, cfg, word, 0, cursorY)
  {
    var ws := 0;
    y := cursorY;
    while ws < |word|
      invariant ws <= |word|
      invariant Chunks(m, cfg, word, ws, y) == Chunks(m, cfg, word, 0, cursorY)
      decreases |word| - ws
    {
      var b := Row(cfg, y);
      if b.None? { break; }
      var maxW := b.value.Width();
      var chunkLen := FitChars(m, cfg.textSize, word[ws..], maxW);
      var line := word[ws..ws + chunkLen];
      var ok;
      ok, y, line := MeasureFlush(m, cfg, y, line);
      if !ok { break; }  // leaves the chunk loop only: the next word is still measured
      ws := ws + chunkLen;
    }
  }

  /** The measure pass takes one word (WordStep). */
  method MeasureWord(m: Metrics, cfg: Config, span: Span, word: string, cursorY: int, line: string)
    returns (stopped: bool, y: int, line': string)
    ensures stopped ==> WordStep(m, cfg, span, word, cursorY, line) == Halt(y, line')
    ensures !stopped ==> WordStep(m, cfg, span, word, cursorY, line) == Go(y, line')
  {
    var maxW := span.Width();
    var candidate := if |line| > 0 then line + " " + word else word;
    if m(candidate, cfg.textSize).w <= maxW {
      return false, cursorY, candidate;
    }

    y, line' := cursorY, line;
    if |line| > 0 {
      var ok;
      ok, y, line' := MeasureFlush(m, cfg, cursorY, line);
      if !ok { return true, y, line'; }
      var b := Row(cfg, y);
      if b.None? { return true, y, line'; }
      maxW := b.value.Width();
    }

    if m(word, cfg.textSize).w <= maxW {
      return false, y, word;
    }
    y := MeasureChunks(m, cfg, word, y);
    return false, y, [];
  }

  /** One turn of the measure pass's main loop from position p: spaces are
      skipped, then a line break, the end of the text or one word is taken.
      Either the pass stops, and what is left is the final flush, or it goes
      on from a later position. */
  method MeasureStep(m: Metrics, cfg: Config, text: string, p: nat, cursorY: int, line: string)
    returns (stopped: bool, p': nat, y: int, line': string)
    requires p < |text|
    ensures p < p' <= |text| || (stopped && p' == p)
    ensures stopped ==> Final(m, cfg, y, line') == Scan(m, cfg, text, p, cursorY, line)
    ensures !stopped ==> p < p' && Scan(m, cfg, text, p', y, line') == Scan(m, cfg, text, p, cursorY, line)
  {
    var q := SkipSpaces(text, p);
    if q < |text| && text[q] == '\n' {
      var b := Row(cfg, cursorY);
      if b.None? { return true, p, cursorY, line; }
      var _, y1, rest := MeasureFlush(m, cfg, cursorY, line);  // the result is ignored
      return false, q + 1, y1 + cfg.lineGap, rest;
    }
    if q == |text| { return true, p, cursorY, line; }

    var b := Row(cfg, cursorY);
    if b.None? { return true, p, cursorY, line; }

    var e := WordEnd(text, q);
    var word := text[q..e];
    stopped, y, line' := MeasureWord(m, cfg, b.value, word, cursorY, line);
    p' := if stopped then p else e;
  }

  /** The measure pass: the height of the block when wrapped from the top of
      the band (MeasuredHeight). */
  method LayoutHeight(m: Metrics, cfg: Config, text: string) returns (h: int)
    ensures h == MeasuredHeight(m, cfg, text)
  {
    var lineH := TextLineHeight(m, cfg.textSize);  // computed and never used, as in the source
    var cursorY := cfg.topY;
    var line: string := [];
    var p: nat := 0;
    var stopped := false;
    while p < |text| && !stopped
      invariant p <= |text|
      invariant !stopped ==> Scan(m, cfg, text, p, cursorY, line) == Scan(m, cfg, text, 0, cfg.topY, [])
      invariant stopped ==> Final(m, cfg, cursorY, line) == Scan(m, cfg, text, 0, cfg.topY, [])
      decreases |text| - p, if stopped then 0 else 1
    {
      stopped, p, cursorY, line := MeasureStep(m, cfg, text, p, cursorY, line);
    }

    if |line| > 0 {
      var b := Row(cfg, cursorY);
      if b.Some? {
        cursorY := cursorY + m(line, cfg.textSize).h;
      }
    }

    h := cursorY - cfg.topY;
    if h < 0 { h := 0; }
  }

  /** The vertical room of the band, never negative. */
  function Available(cfg: Config): nat
  {
    if cfg.bottomY - cfg.topY < 0 then 0 else cfg.bottomY - cfg.topY
  }

  /** Integer division by two that truncates toward zero, as C's `/` does. */
  function HalfTowardZero(a: int): (q: int)
    ensures a >= 0 ==> 0 <= a - 2 * q <= 1
    ensures a < 0 ==> -1 <= a - 2 * q <= 0
  {
    if a >= 0 then a / 2 else -((-a) / 2)
  }

  /** The row the draw pass starts on, for a block of measured height h.
      Top starts at the top of the band; Bottom ends the block on the bottom of
      the band when it fits; Center splits the spare room, the odd pixel going
      below. A block taller than the band starts at the top. */
  function StartY(cfg: Config, h: int, pos: Pos): (y: int)
    ensures y >= cfg.topY
    ensures pos == Top ==> y == cfg.topY
    ensures pos == Bottom && h <= cfg.bottomY - cfg.topY ==> y + h == cfg.bottomY
    ensures pos == Bottom && h > cfg.bottomY - cfg.topY ==> y == cfg.topY
    ensures pos == Center && 0 <= h <= Available(cfg) ==>
              0 <= (cfg.topY + Available(cfg) - (y + h)) - (y - cfg.topY) <= 1
    ensures pos == Center && h > Available(cfg) ==> y == cfg.topY
  {
    var available := Available(cfg);
    var s :=
      match pos
      case Top => cfg.topY
      case Center => cfg.topY + HalfTowardZero(available - h)
      case Bottom => cfg.bottomY - h;
    if s < cfg.topY then cfg.topY else s
  }

  /** The draw pass's line flush (FlushLine): an empty line changes nothing;
      a line that would reach below bottomY is refused and nothing changes;
      otherwise it is printed at (xLeft, cursorY), the cursor moves down by its
      height and the line gap, and the line is cleared. */
  method DrawFlush(m: Metrics, cfg: Config, xLeft: int, cursorY: int, line: string, log: seq<Print>)
    returns (ok: bool, y: int, rest: string, log': seq<Print>)
    ensures ok ==> rest == [] && FlushLine(m, cfg, xLeft, cursorY, line, log) == Going(y, rest, log')
    ensures !ok ==> y == cursorY && rest == line && log' == log &&
                    FlushLine(m, cfg, xLeft, cursorY, line, log) == Ended(log, cursorY, line)
  {
    if |line| == 0 {
      return true, cursorY, line, log;
    }
    var sz := m(line, cfg.textSize);
    if cursorY + sz.h > cfg.bottomY {
      return false, cursorY, line, log;
    }
    log' := log + [Print(xLeft, cursorY, line)];
    y := cursorY + sz.h + cfg.lineGap;
    rest := [];
    ok := true;
  }

  /** One turn of the draw pass's chunk loop: the most of word[ws..] that
      FitChars allows on the row under the cursor is printed there as a line
      of its own, unless the row has no span or the chunk would reach below
      the band. */
  method DrawChunk(m: Metrics, cfg: Config, word: string, ws: nat, cursorY: int, log: seq<Print>)
    returns (stopped: bool, n: nat, y: int, log': seq<Print>)
    requires ws < |word|
    ensures ws + n <= |word| && (!stopped ==> ws < ws + n)
    ensures stopped ==> ChunkTurns(m, cfg, word, ws, cursorY, log) == Ended(log', y, word[ws..ws + n])
    ensures !stopped ==> ChunkTurns(m, cfg, word, ws, cursorY, log) == ChunkTurns(m, cfg, word, ws + n, y, log')
  {
    var b := Row(cfg, cursorY);
    if b.None? {
      return true, 0, cursorY, log;
    }
    n := FitChars(m, cfg.textSize, word[ws..], b.value.Width());
    assert word[ws..][..n] == word[ws..ws + n];
    var ok, rest;
    ok, y, rest, log' := DrawFlush(m, cfg, b.value.xLeft, cursorY, word[ws..ws + n], log);
    stopped := !ok;
  }

  /** The draw pass's chunk loop (ChunkTurns): a word too wide for its row is
      printed chunk by chunk until the word is done or a row or the band runs
      out. */
  method DrawChunks(m: Metrics, cfg: Config, word: string, cursorY: int, log: seq<Print>)
    returns (stopped: bool, y: int, log': seq<Print>)
    ensures stopped ==> ChunkTurns(m, cfg, word, 0, cursorY, log).Ended? &&
                        ChunkTurns(m, cfg, word, 0, cursorY, log).log == log' &&
                        ChunkTurns(m, cfg, word, 0, cursorY, log).y == y
    ensures !stopped ==> ChunkTurns(m, cfg, word, 0, cursorY, log) == Going(y, [], log')
  {
    var ws: nat := 0;
    stopped, y, log' := false, cursorY, log;
    while ws < |word|
      invariant ws <= |word|
      invariant ChunkTurns(m, cfg, word, ws, y, log') == ChunkTurns(m, cfg, word, 0, cursorY, log)
      decreases |word| - ws
    {
      var n;
      stopped, n, y, log' := DrawChunk(m, cfg, word, ws, y, log');
      if stopped {
        return;
      }
      ws := ws + n;
    }
  }

  /** Before a word that does not fit behind the line buffer (LineBreak): the
      buffer, if not empty, is printed and the cursor moves to the next row.
      Stops when the buffer would reach below bottomY or the next row has no
      span. */
  method BreakLine(m: Metrics, cfg: Config, span: Span, cursorY: int, line: string, log: seq<Print>)
    returns (stopped: bool, y: int, span': Span, log': seq<Print>)
    ensures stopped ==> LineBreak(m, cfg, span, cursorY, line, log).Broken? &&
                        LineBreak(m, cfg, span, cursorY, line, log).log == log' &&
                        LineBreak(m, cfg, span, cursorY, line, log).y == y
    ensures !stopped ==> LineBreak(m, cfg, span, cursorY, line, log) == Fresh(y, span', log')
  {
    if |line| == 0 {
      return false, cursorY, span, log;
    }
    var ok, y', rest, log'' := DrawFlush(m, cfg, span.xLeft, cursorY, line, log);
    if !ok {
      return true, cursorY, span, log;
    }
    var b := Row(cfg, y');
    if b.None? {
      return true, y', span, log'';
    }
    return false, y', b.value, log'';
  }

  /** One word of the draw pass on the row span under the cursor (WordTurn):
      appended to the line when it still fits; otherwise the line is printed
      first and the word starts a fresh row, whole if it fits there and in
      chunks if not. */
  method DrawWord(m: Metrics, cfg: Config, span: Span, word: string, cursorY: int, line: string,
                  log: seq<Print>)
    returns (stopped: bool, y: int, line': string, log': seq<Print>)
    ensures stopped ==> WordTurn(m, cfg, span, word, cursorY, line, log).Ended? &&
                        WordTurn(m, cfg, span, word, cursorY, line, log).log == log' &&
                        WordTurn(m, cfg, span, word, cursorY, line, log).y == y
    ensures !stopped ==> WordTurn(m, cfg, span, word, cursorY, line, log) == Going(y, line', log')
  {
    var candidate := if |line| > 0 then line + " " + word else word;
    if m(candidate, cfg.textSize).w <= span.Width() {
      return false, cursorY, candidate, log;
    }

    var span';
    stopped, y, span', log' := BreakLine(m, cfg, span, cursorY, line, log);
    if stopped {
      return true, y, line, log';
    }

    if m(word, cfg.textSize).w <= span'.Width() {
      return false, y, word, log';
    }

    stopped, y, log' := DrawChunks(m, cfg, word, y, log');
    line' := [];
  }

  /** A line break in the text (NewlineTurn): the line buffer is printed (when
      not empty) on the row under the cursor and the cursor moves down one
      more line gap. Stops when that row has no span, even for an empty
      buffer, or when the buffer would reach below bottomY. */
  method DrawNewline(m: Metrics, cfg: Config, cursorY: int, line: string, log: seq<Print>)
    returns (stopped: bool, y: int, line': string, log': seq<Print>)
    ensures stopped ==> NewlineTurn(m, cfg, cursorY, line, log).Ended? &&
                        NewlineTurn(m, cfg, cursorY, line, log).log == log' &&
                        NewlineTurn(m, cfg, cursorY, line, log).y == y
    ensures !stopped ==> NewlineTurn(m, cfg, cursorY, line, log) == Going(y, line', log')
  {
    var b := Row(cfg, cursorY);
    if b.None? {
      return true, cursorY, line, log;
    }
    var ok, y', rest, log'' := DrawFlush(m, cfg, b.value.xLeft, cursorY, line, log);
    if !ok {
      return true, cursorY, line, log;
    }
    return false, y' + cfg.lineGap, rest, log'';
  }

  /** The end of the text (LastLine): the line buffer, when not empty, is
      printed on the row under the cursor if that row has a span and the
      line ends at or above bottomY. */
  method DrawLast(m: Metrics, cfg: Config, cursorY: int, line: string, log: seq<Print>)
    returns (log': seq<Print>)
    ensures log' == LastLine(m, cfg, cursorY, line, log).log
  {
    log' := log;
    if |line| == 0 {
      return;
    }
    var b := Row(cfg, cursorY);
    if b.None? {
      return;
    }
    var ok, y, rest;
    ok, y, rest, log' := DrawFlush(m, cfg, b.value.xLeft, cursorY, line, log);
  }

  /** The draw pass reaches a line break at q. */
  method DrawNewlineAt(m: Metrics, cfg: Config, text: string, q: nat, cursorY: int, line: string,
                       log: seq<Print>)
    returns (stopped: bool, p': nat, y: int, line': string, log': seq<Print>)
    requires q < |text| && text[q] == '\n'
    ensures stopped ==> p' == q && log' == DrawScan(m, cfg, text, q, cursorY, line, log).log
    ensures !stopped ==> p' == q + 1 &&
                         DrawScan(m, cfg, text, p', y, line', log') == DrawScan(m, cfg, text, q, cursorY, line, log)
  {
    assert SpacesEnd(text, q) == q;
    stopped, y, line', log' := DrawNewline(m, cfg, cursorY, line, log);
    p' := if stopped then q else q + 1;
  }

  /** The draw pass reaches a word at q: it stops if the row under the cursor
      has no span, and otherwise reads the word and places it. */
  method DrawWordAt(m: Metrics, cfg: Config, text: string, q: nat, cursorY: int, line: string,
                    log: seq<Print>)
    returns (stopped: bool, p': nat, y: int, line': string, log': seq<Print>)
    requires q < |text| && !IsSep(text[q])
    ensures q <= p' <= |text|
    ensures stopped ==> log' == DrawScan(m, cfg, text, q, cursorY, line, log).log
    ensures !stopped ==> q < p' &&
                         DrawScan(m, cfg, text, p', y, line', log') == DrawScan(m, cfg, text, q, cursorY, line, log)
  {
    assert SpacesEnd(text, q) == q;
    var b := Row(cfg, cursorY);
    if b.None? {
      return true, q, cursorY, line, log;
    }
    p' := WordEnd(text, q);
    stopped, y, line', log' := DrawWord(m, cfg, b.value, text[q..p'], cursorY, line, log);
  }

  /** One turn of the draw pass's main loop from p: skips spaces, then
      handles a line break, the end of the text, or one word. */
  method DrawStep(m: Metrics, cfg: Config, text: string, p: nat, cursorY: int, line: string,
                  log: seq<Print>)
    returns (stopped: bool, p': nat, y: int, line': string, log': seq<Print>)
    requires p < |text|
    ensures p' <= |text|
    ensures stopped ==> log' == DrawScan(m, cfg, text, p, cursorY, line, log).log
    ensures !stopped ==> p < p' &&
                         DrawScan(m, cfg, text, p', y, line', log') == DrawScan(m, cfg, text, p, cursorY, line, log)
  {
    var q := SkipSpaces(text, p);
    if q == |text| {
      return false, q, cursorY, line, log;
    }
    if text[q] == '\n' {
      stopped, p', y, line', log' := DrawNewlineAt(m, cfg, text, q, cursorY, line, log);
    } else {
      stopped, p', y, line', log' := DrawWordAt(m, cfg, text, q, cursorY, line, log);
    }
  }

  /** The draw pass from row startY: prints the greedy wrap of text, line by
      line, and stops silently at the first row with no span or at the first
      line that would reach below bottomY. What it prints is DrawnLines,
      whose layout DrawLayout.DrawnLinesLaid describes. */
  method DrawPass(m: Metrics, cfg: Config, text: string, startY: int) returns (log: seq<Print>)
    ensures log == DrawnLines(m, cfg, text, startY)
  {
    var cursorY := startY;
    var line: string := [];
    var p: nat := 0;
    log := [];

    while p < |text|
      invariant p <= |text|
      invariant DrawScan(m, cfg, text, p, cursorY, line, log) == DrawEnd(m, cfg, text, startY)
      decreases |text| - p
    {
      var stopped;
      stopped, p, cursorY, line, log := DrawStep(m, cfg, text, p, cursorY, line, log);
      if stopped {
        return;
      }
    }

    assert SpacesEnd(text, p) == p;
    log := DrawLast(m, cfg, cursorY, line, log);
  }
}
