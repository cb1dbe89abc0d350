/** The vocabulary in which the draw pass of drawWrappedTextCircle
    (CircleText.cpp) is described: where a printed line sits, how the lines
    stack, how they read back as text, and the state the pass keeps between
    steps. DrawLayout proves the pass keeps to it. */
module DrawLines {
  import opened Optional
  import opened Geometry
  import opened WordRuns
  import opened Gfx
  import opened CircleTextConfig
  import opened MeasureSpec
  import opened DrawSpec

  ghost predicate NoSpace(s: string)
  {
    forall i :: 0 <= i < |s| ==> s[i] != ' '
  }

  /** A printed line is non-empty, starts at the left end of its row's span,
      fits the row's width unless it is a single character, and ends above
      the bottom of the band. */
  ghost predicate Placed(m: Metrics, cfg: Config, pr: Print)
  {
    pr.text != [] &&
    Row(cfg, pr.y).Some? && Row(cfg, pr.y).value.xLeft == pr.x &&
    (m(pr.text, cfg.textSize).w <= Row(cfg, pr.y).value.Width() || |pr.text| == 1) &&
    pr.y + m(pr.text, cfg.textSize).h <= cfg.bottomY
  }

  /** Lines come one below the other: the first at or below startY, and each
      line at least an earlier line's height plus the line gap lower than it. */
  ghost predicate Stacked(m: Metrics, cfg: Config, startY: int, log: seq<Print>)
  {
    (|log| > 0 ==> log[0].y >= startY) &&
    forall i, j :: 0 <= i < j < |log| ==> log[i].y + m(log[i].text, cfg.textSize).h + cfg.lineGap <= log[j].y
  }

  /** The printed lines read back as text: joins[i] says whether a word
      boundary (one space) follows line i; without one, line i and the next are
      consecutive chunks of one word. */
  function Render(log: seq<Print>, joins: seq<bool>): string
    requires |joins| == |log|
  {
    if log == [] then []
    else Render(log[..|log| - 1], joins[..|log| - 1]) + log[|log| - 1].text + (if joins[|log| - 1] then " " else "")
  }

  /** Line i is glued to a neighbour without a word boundary. */
  ghost predicate Glued(joins: seq<bool>, i: int)
    requires 0 <= i < |joins|
  {
    !joins[i] || (i > 0 && !joins[i - 1])
  }

  /** Only chunks of a word are joined without a boundary: both sides of such
      a join are free of spaces. */
  ghost predicate ChunksJoined(log: seq<Print>, joins: seq<bool>)
    requires |joins| == |log|
  {
    forall i :: 0 <= i < |log| && Glued(joins, i) ==> NoSpace(log[i].text)
  }

  /** The printed lines, read in order with their joins, are the words of text
      separated by single spaces, up to a point: truncation drops a suffix. */
  ghost predicate ReformsPrefix(log: seq<Print>, joins: seq<bool>, text: string)
  {
    |joins| == |log| && ChunksJoined(log, joins) && Render(log, joins) <= Spaced(Words(text))
  }

  /** Line a ends, with the line gap after it, at or above row y. */
  ghost predicate Below(m: Metrics, cfg: Config, a: Print, y: int)
  {
    a.y + m(a.text, cfg.textSize).h + cfg.lineGap <= y
  }

  /** Line k of the log as the draw pass prints it: placed on its row, free
      of spaces when glued to a neighbour, and (when the line gap is not
      negative) at or below startY if it is the first line, below the line
      before it otherwise. */
  ghost predicate LineLaid(m: Metrics, cfg: Config, startY: int, log: seq<Print>, joins: seq<bool>, k: int)
    requires |joins| == |log| && 0 <= k < |log|
  {
    Placed(m, cfg, log[k]) &&
    (Glued(joins, k) ==> NoSpace(log[k].text)) &&
    (cfg.lineGap >= 0 ==> if k == 0 then log[k].y >= startY else Below(m, cfg, log[k - 1], log[k].y))
  }

  /** The log line by line, as the draw pass builds it: every line laid
      against the one before it. LaidMeans turns this into Placed,
      ChunksJoined and Stacked over the whole log. */
  ghost predicate Laid(m: Metrics, cfg: Config, startY: int, log: seq<Print>, joins: seq<bool>)
    requires |joins| == |log|
  {
    forall k :: 0 <= k < |log| ==> LineLaid(m, cfg, startY, log, joins, k)
  }

  /** The draw pass's state between steps: the lines printed so far are laid
      out above the cursor (when the line gap is not negative). */
  ghost predicate Printed(m: Metrics, cfg: Config, startY: int, cursorY: int, log: seq<Print>, joins: seq<bool>)
  {
    |joins| == |log| && Laid(m, cfg, startY, log, joins) &&
    (cfg.lineGap >= 0 ==>
      cursorY >= startY && (|log| > 0 ==> Below(m, cfg, log[|log| - 1], cursorY)))
  }

  /** The last printed line, if any, ends a word. */
  ghost predicate Closed(log: seq<Print>, joins: seq<bool>)
  {
    |joins| == |log| && (|log| > 0 ==> joins[|log| - 1])
  }

  /** The line buffer fits the row under the cursor. */
  ghost predicate LineFits(m: Metrics, cfg: Config, cursorY: int, line: string)
  {
    line != [] ==> Row(cfg, cursorY).Some? && m(line, cfg.textSize).w <= Row(cfg, cursorY).value.Width()
  }

  /** The text still held in the line buffer, with the boundary that follows it. */
  function Pending(line: string): string
  {
    if line == [] then [] else line + " "
  }

  /** Line k holds the first chunk of a word cut into chunks: it is glued to
      the line after it and not to the line before. */
  ghost predicate SplitStart(joins: seq<bool>, k: int)
    requires 0 <= k < |joins|
  {
    !joins[k] && (k == 0 || joins[k - 1])
  }

  /** A word is cut into chunks only when it alone is wider than the row its
      first chunk is printed on. For the first chunk of each cut word, at line
      k, words[k] is that word: the word of read that follows the lines before
      line k. */
  ghost predicate SplitsWide(m: Metrics, cfg: Config, log: seq<Print>, joins: seq<bool>, words: seq<string>,
                             read: string)
  {
    |joins| == |log| && |words| == |log| &&
    forall k {:trigger SplitStart(joins, k)} :: 0 <= k < |log| && SplitStart(joins, k) ==>
      words[k] != [] && NoSpace(words[k]) &&
      Render(log[..k], joins[..k]) + words[k] + " " <= read &&
      Row(cfg, log[k].y).Some? && m(words[k], cfg.textSize).w > Row(cfg, log[k].y).value.Width()
  }

  /** The pass ended early with the cursor on row stopY, below the lines
      printed, and next the text it did not print: the row has no span, or
      next is a line that would reach below bottomY. The printed lines
      followed by next read as a prefix of read. */
  ghost predicate Cut(m: Metrics, cfg: Config, startY: int, log: seq<Print>, joins: seq<bool>,
                      stopY: int, next: string, read: string)
  {
    Printed(m, cfg, startY, stopY, log, joins) && Render(log, joins) + next <= read &&
    (Row(cfg, stopY).None? || (next != [] && stopY + m(next, cfg.textSize).h > cfg.bottomY))
  }

  /** Where the pass has ended: the lines printed are laid out, read back as
      a prefix of read, and cut words only where they had to be. */
  ghost predicate Halted(m: Metrics, cfg: Config, startY: int, log: seq<Print>, joins: seq<bool>,
                         words: seq<string>, read: string)
  {
    |joins| == |log| && Laid(m, cfg, startY, log, joins) && Render(log, joins) <= read &&
    SplitsWide(m, cfg, log, joins, words, read)
  }
}
