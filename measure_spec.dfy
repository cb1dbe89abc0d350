/** Reference definitions of what fitCharsIntoWidth and the measure pass
    (layoutHeight in CircleText.cpp) compute, written as recursive functions
    over the scan position; the methods of CircleText are proved to compute
    exactly these. */
module MeasureSpec {
  import opened Optional
  import opened Geometry
  import opened WordRuns
  import opened Gfx
  import opened CircleTextConfig

  /** Capacity of the character buffer fitCharsIntoWidth measures prefixes in
      (one slot is kept for the terminator). */
  const TmpCapacity: nat := 96

  /** The chunk length fitCharsIntoWidth settles on, having found prefixes up
      to n characters no wider than maxW: the first longer prefix that is too
      wide stops it (a lone first character is taken anyway), as do the end of
      s and a full buffer. */
  function FitFrom(m: Metrics, size: nat, s: string, maxW: int, n: nat): (k: nat)
    requires n <= |s|
    ensures n <= k <= |s| && (s != [] ==> 1 <= k)
    decreases |s| - n
  {
    if n < |s| && n < TmpCapacity - 1 then
      if m(s[..n + 1], size).w > maxW then (if n == 0 then 1 else n)
      else FitFrom(m, size, s, maxW, n + 1)
    else n
  }

  function FitCount(m: Metrics, size: nat, s: string, maxW: int): nat
  {
    FitFrom(m, size, s, maxW, 0)
  }

  /** The chunk is never empty and never longer than s or the buffer allows;
      past a first character that fits, every prefix it keeps fits and it
      stops only at the end of s, a full buffer or a prefix too wide. */
  lemma {:induction false} FitFromBounds(m: Metrics, size: nat, s: string, maxW: int, n: nat)
    requires n <= |s|
    requires forall k :: 1 <= k <= n ==> m(s[..k], size).w <= maxW
    requires n <= TmpCapacity - 1
    ensures var k := FitFrom(m, size, s, maxW, n);
      && (s != [] ==> 1 <= k <= |s| && k <= TmpCapacity - 1)
      && (s == [] ==> k == 0)
      && (n >= 1 || (s != [] && m(s[..1], size).w <= maxW) ==>
            (forall j :: 1 <= j <= k ==> m(s[..j], size).w <= maxW) &&
            (k == |s| || k == TmpCapacity - 1 || m(s[..k + 1], size).w > maxW))
    decreases |s| - n
  {
    if n < |s| && n < TmpCapacity - 1 && m(s[..n + 1], size).w <= maxW {
      FitFromBounds(m, size, s, maxW, n + 1);
    }
  }

  /** The first position at or after p that is not a space. */
  function SpacesEnd(text: string, p: nat): (q: nat)
    requires p <= |text|
    ensures p <= q <= |text|
    ensures q == |text| || text[q] != ' '
    decreases |text| - p
  {
    if p < |text| && text[p] == ' ' then SpacesEnd(text, p + 1) else p
  }

  /** The end of the word that starts at p: the next space, line break or the
      end of the text. */
  function WordStop(text: string, p: nat): (q: nat)
    requires p <= |text|
    ensures p <= q <= |text|
    decreases |text| - p
  {
    if p < |text| && !IsSep(text[p]) then WordStop(text, p + 1) else p
  }

  /** The height of a line as the font renders it. */
  function LineHeight(m: Metrics, cfg: Config, line: string): nat
  {
    m(line, cfg.textSize).h
  }

  /** The measure pass's flush: an empty line leaves the cursor; a line moves
      it down by its height and the line gap. */
  function Advance(m: Metrics, cfg: Config, cursorY: int, line: string): int
  {
    if line == [] then cursorY else cursorY + LineHeight(m, cfg, line) + cfg.lineGap
  }

  /** After the scan: a pending line on a row with a span adds its
      height, without a line gap and without looking at bottomY. */
  function Final(m: Metrics, cfg: Config, cursorY: int, line: string): int
  {
    if line != [] && Row(cfg, cursorY).Some? then cursorY + LineHeight(m, cfg, line) else cursorY
  }

  /** The chunk loop of the measure pass, from offset ws of a word that fits
      no row: each chunk is flushed on the row under the cursor; the loop ends
      with the word, at a row with no span, or at the first flush that
      goes below bottomY. The result is the cursor it leaves. */
  function Chunks(m: Metrics, cfg: Config, word: string, ws: nat, cursorY: int): int
    requires ws <= |word|
    decreases |word| - ws
  {
    if ws == |word| then cursorY
    else
      match Row(cfg, cursorY)
      case None => cursorY
      case Some(span) =>
        var n := FitCount(m, cfg.textSize, word[ws..], span.Width());
        var y := Advance(m, cfg, cursorY, word[ws..ws + n]);
        if y > cfg.bottomY then y else Chunks(m, cfg, word, ws + n, y)
  }

  /** How a turn of the measure pass ends: the scan stops with the cursor and
      the pending line, or goes on with them. */
  datatype Next = Halt(y: int, line: string) | Go(y: int, line: string)

  /** The measure pass takes a word on the row span under the cursor: it joins
      the pending line if the two fit together; otherwise the pending line is
      flushed (the scan stops if that goes below bottomY or onto a row outside
      the circle), and the word starts a new line if it fits the row, or is cut
      into chunks if it does not. */
  function WordStep(m: Metrics, cfg: Config, span: Span, word: string, cursorY: int, line: string): Next
  {
    var candidate := if line != [] then line + " " + word else word;
    if m(candidate, cfg.textSize).w <= span.Width() then Go(cursorY, candidate)
    else
      var y := Advance(m, cfg, cursorY, line);
      var row := if line != [] then Row(cfg, y) else Some(span);
      if line != [] && y > cfg.bottomY then Halt(y, [])
      else if row.None? then Halt(y, [])
      else if m(word, cfg.textSize).w <= row.value.Width() then Go(y, word)
      else Go(Chunks(m, cfg, word, 0, y), [])
  }

  /** The measure pass from position p with the cursor at cursorY and line
      pending: the cursor after the last line is counted. */
  function Scan(m: Metrics, cfg: Config, text: string, p: nat, cursorY: int, line: string): int
    requires p <= |text|
    decreases |text| - p
  {
    var q := SpacesEnd(text, p);
    if q == |text| then Final(m, cfg, cursorY, line)
    else if text[q] == '\n' then
      if Row(cfg, cursorY).None? then Final(m, cfg, cursorY, line)
      else Scan(m, cfg, text, q + 1, Advance(m, cfg, cursorY, line) + cfg.lineGap, [])
    else
      match Row(cfg, cursorY)
      case None => Final(m, cfg, cursorY, line)
      case Some(span) =>
        var e := WordStop(text, q);
        match WordStep(m, cfg, span, text[q..e], cursorY, line)
        case Halt(y, rest) => Final(m, cfg, y, rest)
        case Go(y, rest) => Scan(m, cfg, text, e, y, rest)
  }

  /** The height layoutHeight returns: the distance the cursor moved from
      topY, never negative. */
  function MeasuredHeight(m: Metrics, cfg: Config, text: string): (h: nat)
  {
    var used := Scan(m, cfg, text, 0, cfg.topY, []) - cfg.topY;
    if used < 0 then 0 else used
  }

  /** Only spaces remain from p on. */
  lemma {:induction false} SpacesToEnd(text: string, p: nat)
    requires p <= |text|
    requires forall j :: p <= j < |text| ==> text[j] == ' '
    ensures SpacesEnd(text, p) == |text|
    decreases |text| - p
  {
    if p < |text| {
      SpacesToEnd(text, p + 1);
    }
  }

  /** Empty or space-only text has height 0. */
  lemma BlankHeight(m: Metrics, cfg: Config, text: string)
    requires forall j :: 0 <= j < |text| ==> text[j] == ' '
    ensures MeasuredHeight(m, cfg, text) == 0
  {
    SpacesToEnd(text, 0);
  }

  /** A band whose top row lies outside the circle (or leaves no room
      between the margins) measures 0: the scan stops before its first line. */
  lemma OutsideTopHeight(m: Metrics, cfg: Config, text: string)
    requires Row(cfg, cfg.topY).None?
    ensures MeasuredHeight(m, cfg, text) == 0
  {
  }
}
