/** What the draw pass of drawWrappedTextCircle (CircleText.cpp) promises
    about the lines it prints, proved of the reference definition DrawnLines:
    each line sits at the left end of its row's span and ends at or above
    bottomY, the lines come one below the other, and read in order they
    are the words of the text, cut short where the pass stopped. */
module DrawLayout {
  import opened Optional
  import opened Geometry
  import opened WordRuns
  import opened Gfx
  import opened CircleTextConfig
  import opened MeasureSpec
  import opened DrawSpec
  import opened DrawLines

  lemma RenderAppend(log: seq<Print>, joins: seq<bool>, pr: Print, join: bool)
    requires |joins| == |log|
    ensures Render(log + [pr], joins + [join]) == Render(log, joins) + pr.text + (if join then " " else "")
  {
    assert (log + [pr])[..|log|] == log;
    assert (joins + [join])[..|log|] == joins;
  }

  /** Printing one more line at the cursor keeps the printed state. */
  lemma PrintedAppend(m: Metrics, cfg: Config, startY: int, cursorY: int, log: seq<Print>, joins: seq<bool>,
                      pr: Print, join: bool)
    requires Printed(m, cfg, startY, cursorY, log, joins)
    requires Placed(m, cfg, pr) && pr.y == cursorY
    requires |log| > 0 && !joins[|log| - 1] ==> NoSpace(pr.text)
    requires !join ==> NoSpace(pr.text)
    ensures Printed(m, cfg, startY, cursorY + m(pr.text, cfg.textSize).h + cfg.lineGap, log + [pr], joins + [join])
  {
    var log', joins' := log + [pr], joins + [join];
    forall k | 0 <= k < |log'|
      ensures LineLaid(m, cfg, startY, log', joins', k)
    {
      if k < |log| {
        assert LineLaid(m, cfg, startY, log, joins, k);
        assert log'[k] == log[k] && joins'[k] == joins[k];
        assert k > 0 ==> log'[k - 1] == log[k - 1] && joins'[k - 1] == joins[k - 1];
      } else if k > 0 {
        assert log'[k - 1] == log[k - 1] && joins'[k - 1] == joins[k - 1];
      }
    }
  }

  /** In a laid log, every line ends, with the line gap after it, at or above
      every later line (when the line gap is not negative). */
  lemma {:induction false} LaidStacked(m: Metrics, cfg: Config, startY: int, log: seq<Print>, joins: seq<bool>,
                                       i: int, j: int)
    requires |joins| == |log| && Laid(m, cfg, startY, log, joins) && cfg.lineGap >= 0
    requires 0 <= i < j < |log|
    ensures log[i].y + m(log[i].text, cfg.textSize).h + cfg.lineGap <= log[j].y
    decreases j - i
  {
    assert LineLaid(m, cfg, startY, log, joins, j);
    if i < j - 1 {
      LaidStacked(m, cfg, startY, log, joins, i, j - 1);
    }
  }

  /** The line-by-line form of the log gives the properties of the whole log. */
  lemma LaidMeans(m: Metrics, cfg: Config, startY: int, log: seq<Print>, joins: seq<bool>)
    requires |joins| == |log| && Laid(m, cfg, startY, log, joins)
    ensures forall i :: 0 <= i < |log| ==> Placed(m, cfg, log[i])
    ensures ChunksJoined(log, joins)
    ensures cfg.lineGap >= 0 ==> Stacked(m, cfg, startY, log)
  {
    forall i | 0 <= i < |log|
      ensures Placed(m, cfg, log[i])
      ensures Glued(joins, i) ==> NoSpace(log[i].text)
    {
      assert LineLaid(m, cfg, startY, log, joins, i);
    }
    if cfg.lineGap >= 0 {
      if |log| > 0 {
        assert LineLaid(m, cfg, startY, log, joins, 0);
      }
      forall i, j | 0 <= i < j < |log|
        ensures log[i].y + m(log[i].text, cfg.textSize).h + cfg.lineGap <= log[j].y
      {
        LaidStacked(m, cfg, startY, log, joins, i, j);
      }
    }
  }

  /** Moving the cursor down by the line gap keeps the printed state. */
  lemma PrintedGap(m: Metrics, cfg: Config, startY: int, cursorY: int, log: seq<Print>, joins: seq<bool>)
    requires Printed(m, cfg, startY, cursorY, log, joins)
    ensures Printed(m, cfg, startY, cursorY + cfg.lineGap, log, joins)
  {
  }

  /** Where the pass stops, what has been rendered is a prefix of the spaced
      words of the whole text; with no words at all, nothing was printed. */
  lemma Stop(text: string, q: int, log: seq<Print>, joins: seq<bool>)
    requires AtBoundary(text, q)
    requires |joins| == |log|
    requires forall i :: 0 <= i < |log| ==> log[i].text != []
    requires Render(log, joins) <= Spaced(Words(text[..q]))
    ensures Render(log, joins) <= Spaced(Words(text))
    ensures Words(text) == [] ==> log == []
  {
    SpacedWordsPrefix(text, q);
  }

  /** Reading a word of text extends its words by that word. */
  lemma ReadWord(text: string, start: int, p: int)
    requires AtBoundary(text, start) && start < p <= |text|
    requires forall j :: start <= j < p ==> !IsSep(text[j])
    ensures Spaced(Words(text[..p])) == Spaced(Words(text[..start])) + text[start..p] + " "
    ensures text[start..p] != [] && NoSpace(text[start..p])
  {
    assert text[..p] == text[..start] + text[start..p];
    assert !IsSep(text[start]);
    WordsAppendWord(text[..start], text[start..p]);
    var ws := Words(text[..start]) + [text[start..p]];
    assert ws[..|ws| - 1] == Words(text[..start]);
  }

  /** Skipping one separator leaves the words read so far unchanged. */
  lemma ReadSep(text: string, p: int)
    requires 0 <= p < |text| && IsSep(text[p])
    ensures Words(text[..p + 1]) == Words(text[..p])
  {
    assert text[..p + 1] == text[..p] + [text[p]];
    WordsAppendSep(text[..p], text[p]);
  }

  /** Before any chunk, the rendering is what was done before the word. */
  lemma ChunksRendered(log: seq<Print>, joins: seq<bool>, done: string, word: string, ws: nat)
    requires |joins| == |log| && ws == 0 < |word|
    requires Render(log, joins) == done
    ensures Render(log, joins) == done + word[..ws] + (if ws == |word| then " " else "")
  {
    assert word[..ws] == [];
  }

  /** The chunk word[ws..ws + n] continues the chunks before it. */
  lemma ChunkAppended(done: string, word: string, ws: nat, n: nat)
    requires ws + n <= |word|
    ensures done + word[..ws] + word[ws..ws + n] == done + word[..ws + n]
  {
    assert word[..ws] + word[ws..ws + n] == word[..ws + n];
  }

  /** Printing chunk word[ws..ws + n] renders it after the chunks before it,
      and closes the word with a boundary when it is the last chunk. */
  lemma ChunkRendered(log: seq<Print>, joins: seq<bool>, pr: Print, done: string, word: string, ws: nat, n: nat)
    requires |joins| == |log| && ws < ws + n <= |word|
    requires pr.text == word[ws..ws + n]
    requires Render(log, joins) == done + word[..ws]
    ensures Render(log + [pr], joins + [ws + n == |word|]) ==
            done + word[..ws + n] + (if ws + n == |word| then " " else "")
  {
    RenderAppend(log, joins, pr, ws + n == |word|);
    ChunkAppended(done, word, ws, n);
  }

  /** Printing chunk word[ws..ws + n] at the cursor keeps the printed state,
      renders the chunk after the ones before it, and records word as cut
      when this first chunk is not the whole of it. */
  lemma ChunkPrinted(m: Metrics, cfg: Config, startY: int, cursorY: int, log: seq<Print>, joins: seq<bool>,
                     words: seq<string>, pr: Print, done: string, word: string, ws: nat, n: nat)
    requires ws < ws + n <= |word| && NoSpace(word)
    requires pr.text == word[ws..ws + n] && Placed(m, cfg, pr) && pr.y == cursorY
    requires Printed(m, cfg, startY, cursorY, log, joins)
    requires |log| > 0 ==> (joins[|log| - 1] <==> ws == 0)
    requires Render(log, joins) == done + word[..ws]
    requires SplitsWide(m, cfg, log, joins, words, done + word + " ")
    requires ws == 0 ==> m(word, cfg.textSize).w > Row(cfg, cursorY).value.Width()
    ensures var y, last := cursorY + m(pr.text, cfg.textSize).h + cfg.lineGap, ws + n == |word|;
      Printed(m, cfg, startY, y, log + [pr], joins + [last]) &&
      Render(log + [pr], joins + [last]) == done + word[..ws + n] + (if last then " " else "") &&
      SplitsWide(m, cfg, log + [pr], joins + [last], words + [word], done + word + " ")
  {
    PrintedAppend(m, cfg, startY, cursorY, log, joins, pr, ws + n == |word|);
    ChunkRendered(log, joins, pr, done, word, ws, n);
    SplitsAppend(m, cfg, log, joins, words, done + word + " ", pr, ws + n == |word|, word, done + word + " ");
  }

  /** What was printed of a word, followed by the chunk that comes next, is a
      prefix of the word and its boundary. */
  lemma ChunkLeft(r: string, done: string, word: string, ws: nat, n: nat)
    requires ws <= ws + n <= |word| && r == done + word[..ws]
    ensures r + word[ws..ws + n] <= done + word + " "
  {
    ChunkAppended(done, word, ws, n);
    assert (done + word + " ")[..|done| + ws + n] == done + word[..ws + n];
  }

  /** The chunks printed so far are a prefix of the word and its boundary. */
  lemma ChunksPrefix(done: string, word: string, ws: nat)
    requires ws <= |word|
    ensures done + word[..ws] + (if ws == |word| then " " else "") <= done + word + " "
  {
    if ws == |word| {
      assert word[..ws] == word;
    } else {
      assert (done + word + " ")[..|done| + ws] == done + word[..ws];
    }
  }

  /** A prefix of a string extended by anything. */
  lemma Extends(a: string, b: string)
    ensures a <= a + b
  {
  }

  /** A prefix of what was done is a prefix of it followed by a word. */
  lemma ExtendsByWord(a: string, done: string, word: string)
    requires a <= done
    ensures a <= done + word + " "
  {
    assert (done + word + " ")[..|done|] == done;
  }

  /** An empty line buffer holds nothing back. */
  lemma NothingPending(r: string)
    ensures r + Pending([]) == r
  {
  }

  /** A word in the line buffer is rendered with its boundary. */
  lemma WordPending(r: string, word: string)
    requires word != []
    ensures r + Pending(word) == r + word + " "
  {
  }

  /** Appending a word to the pending line renders the word and a boundary
      after what was pending. */
  lemma WordJoined(r: string, line: string, word: string)
    requires word != []
    ensures r + Pending(if line != [] then line + " " + word else word) == r + Pending(line) + word + " "
  {
  }

  /** Printing the line buffer as a line that ends a word renders exactly what
      was pending. */
  lemma FlushRendered(log: seq<Print>, joins: seq<bool>, pr: Print)
    requires |joins| == |log| && pr.text != []
    ensures Render(log + [pr], joins + [true]) == Render(log, joins) + Pending(pr.text)
  {
    RenderAppend(log, joins, pr, true);
  }

  /** A prefix of a prefix. */
  lemma PrefixOfPrefix(a: string, b: string, c: string)
    requires a <= b && b <= c
    ensures a <= c
  {
    assert c[..|a|] == b[..|a|];
  }

  /** The cut words are still placed after more is read. */
  lemma SplitsWithin(m: Metrics, cfg: Config, log: seq<Print>, joins: seq<bool>, words: seq<string>,
                     a: string, b: string)
    requires SplitsWide(m, cfg, log, joins, words, a) && a <= b
    ensures SplitsWide(m, cfg, log, joins, words, b)
  {
    forall k | 0 <= k < |log| && SplitStart(joins, k)
      ensures Render(log[..k], joins[..k]) + words[k] + " " <= b
    {
      PrefixOfPrefix(Render(log[..k], joins[..k]) + words[k] + " ", a, b);
    }
  }

  /** Printing one more line keeps the cut words placed; the line starts a
      cut word only when it is not joined to the line before nor followed by
      a boundary, and then w is that word. */
  lemma SplitsAppend(m: Metrics, cfg: Config, log: seq<Print>, joins: seq<bool>, words: seq<string>,
                     read: string, pr: Print, join: bool, w: string, read': string)
    requires SplitsWide(m, cfg, log, joins, words, read) && read <= read'
    requires !join && (|log| == 0 || joins[|log| - 1]) ==>
               w != [] && NoSpace(w) && Render(log, joins) + w + " " <= read' &&
               Row(cfg, pr.y).Some? && m(w, cfg.textSize).w > Row(cfg, pr.y).value.Width()
    ensures SplitsWide(m, cfg, log + [pr], joins + [join], words + [w], read')
  {
    SplitsWithin(m, cfg, log, joins, words, read, read');
    var log', joins', words' := log + [pr], joins + [join], words + [w];
    forall k | 0 <= k < |log'| && SplitStart(joins', k)
      ensures words'[k] != [] && NoSpace(words'[k])
      ensures Render(log'[..k], joins'[..k]) + words'[k] + " " <= read'
      ensures Row(cfg, log'[k].y).Some? && m(words'[k], cfg.textSize).w > Row(cfg, log'[k].y).value.Width()
    {
      if k < |log| {
        assert log'[..k] == log[..k] && joins'[..k] == joins[..k];
        assert SplitStart(joins, k);
      } else {
        assert log'[..k] == log && joins'[..k] == joins;
      }
    }
  }

  /** A pass cut short within a prefix of read is cut short within read. */
  lemma CutWithin(m: Metrics, cfg: Config, startY: int, log: seq<Print>, joins: seq<bool>, words: seq<string>,
                  stopY: int, next: string, a: string, b: string)
    requires Cut(m, cfg, startY, log, joins, stopY, next, a) && SplitsWide(m, cfg, log, joins, words, a)
    requires a <= b
    ensures Cut(m, cfg, startY, log, joins, stopY, next, b) && SplitsWide(m, cfg, log, joins, words, b)
    ensures Halted(m, cfg, startY, log, joins, words, b)
  {
    PrefixOfPrefix(Render(log, joins) + next, a, b);
    PrefixOfPrefix(Render(log, joins), Render(log, joins) + next, b);
    SplitsWithin(m, cfg, log, joins, words, a, b);
  }

  /** A pass cut short within the words before boundary q is cut short
      within the words of the whole text. */
  lemma CutInText(m: Metrics, cfg: Config, startY: int, text: string, q: nat, log: seq<Print>,
                  joins: seq<bool>, words: seq<string>, stopY: int, next: string)
    requires q <= |text| && AtBoundary(text, q)
    requires Cut(m, cfg, startY, log, joins, stopY, next, Spaced(Words(text[..q])))
    requires SplitsWide(m, cfg, log, joins, words, Spaced(Words(text[..q])))
    ensures Cut(m, cfg, startY, log, joins, stopY, next, Spaced(Words(text)))
    ensures Halted(m, cfg, startY, log, joins, words, Spaced(Words(text)))
  {
    SpacedWordsPrefix(text, q);
    CutWithin(m, cfg, startY, log, joins, words, stopY, next, Spaced(Words(text[..q])), Spaced(Words(text)));
  }

  /** Skipping spaces from a word boundary ends at a word boundary, on a
      character other than a space, with the words read so far unchanged. */
  lemma {:induction false} SpacesSkipped(text: string, p: nat)
    requires p <= |text| && AtBoundary(text, p)
    ensures var q := SpacesEnd(text, p);
      AtBoundary(text, q) && Words(text[..q]) == Words(text[..p]) && (q == |text| || text[q] != ' ')
    decreases |text| - p
  {
    if p < |text| && text[p] == ' ' {
      ReadSep(text, p);
      SpacesSkipped(text, p + 1);
    }
  }

  /** A word runs up to a separator or the end of the text. */
  lemma {:induction false} WordRead(text: string, q: nat)
    requires q <= |text|
    ensures var e := WordStop(text, q);
      (forall j :: q <= j < e ==> !IsSep(text[j])) && (e == |text| || IsSep(text[e]))
    decreases |text| - q
  {
    if q < |text| && !IsSep(text[q]) {
      WordRead(text, q + 1);
    }
  }

  /** One turn of the chunk loop at offset ws: it ends the pass with the
      log as it was, on a row with no span or before a chunk that would reach
      below bottomY, or prints the next chunk, placed below the lines before
      it and read back after the chunks before it, and goes on from ws'. The
      first chunk of a word cut in two or more starts a cut word. */
  lemma ChunkStepLaid(m: Metrics, cfg: Config, startY: int, word: string, ws: nat,
                      cursorY: int, log: seq<Print>, joins: seq<bool>, words: seq<string>, done: string)
    returns (stop: bool, ws': nat, y: int, l: seq<Print>, jn: seq<bool>, wd: seq<string>, next: string)
    requires ws < |word| && NoSpace(word)
    requires Printed(m, cfg, startY, cursorY, log, joins)
    requires |log| > 0 ==> (joins[|log| - 1] <==> ws == 0)
    requires Render(log, joins) == done + word[..ws]
    requires SplitsWide(m, cfg, log, joins, words, done + word + " ")
    requires ws == 0 && Row(cfg, cursorY).Some? ==> m(word, cfg.textSize).w > Row(cfg, cursorY).value.Width()
    ensures stop ==> ChunkTurns(m, cfg, word, ws, cursorY, log) == Ended(log, cursorY, next)
    ensures stop ==> Cut(m, cfg, startY, log, joins, cursorY, next, done + word + " ")
    ensures !stop ==> ws < ws' <= |word|
    ensures !stop ==> ChunkTurns(m, cfg, word, ws, cursorY, log) == ChunkTurns(m, cfg, word, ws', y, l)
    ensures !stop ==> Printed(m, cfg, startY, y, l, jn) && |l| > 0 && (jn[|l| - 1] <==> ws' == |word|)
    ensures !stop ==> Render(l, jn) == done + word[..ws'] + (if ws' == |word| then " " else "")
    ensures !stop ==> SplitsWide(m, cfg, l, jn, wd, done + word + " ")
  {
    var n, span;
    stop, n, span, y, l := ChunkTurnsStep(m, cfg, word, ws, cursorY, log);
    ws', jn, wd, next := ws + n, joins, words, [];
    if stop {
      next := word[ws..ws + n];
      ChunkLeft(Render(log, joins), done, word, ws, n);
    } else {
      var pr := Print(span.xLeft, cursorY, word[ws..ws + n]);
      ChunkPrinted(m, cfg, startY, cursorY, log, joins, words, pr, done, word, ws, n);
      jn, wd := joins + [ws + n == |word|], words + [word];
    }
  }

  /** The chunk loop from offset ws: every chunk it prints is placed on its
      row below the lines before it, glued to the chunks of the same word,
      and the chunks read back as the word; a finished word closes with a
      boundary, and a loop cut short leaves a prefix of it followed by the
      chunk it did not print. */
  lemma {:induction false} ChunkTurnsLaid(m: Metrics, cfg: Config, startY: int, word: string, ws: nat,
                                          cursorY: int, log: seq<Print>, joins: seq<bool>, words: seq<string>,
                                          done: string, t: Turn)
    returns (jn: seq<bool>, wd: seq<string>)
    requires ws <= |word| && NoSpace(word)
    requires t == ChunkTurns(m, cfg, word, ws, cursorY, log)
    requires Printed(m, cfg, startY, cursorY, log, joins)
    requires |log| > 0 ==> (joins[|log| - 1] <==> ws == 0 || ws == |word|)
    requires Render(log, joins) == done + word[..ws] + (if ws == |word| then " " else "")
    requires SplitsWide(m, cfg, log, joins, words, done + word + " ")
    requires ws == 0 && Row(cfg, cursorY).Some? ==> m(word, cfg.textSize).w > Row(cfg, cursorY).value.Width()
    ensures t.Ended? ==> Cut(m, cfg, startY, t.log, jn, t.y, t.next, done + word + " ")
    ensures t.Going? ==> t.line == [] && Printed(m, cfg, startY, t.y, t.log, jn) && Closed(t.log, jn)
    ensures t.Going? ==> Render(t.log, jn) == done + word + " "
    ensures SplitsWide(m, cfg, t.log, jn, wd, done + word + " ")
    decreases |word| - ws
  {
    if ws == |word| {
      assert word[..ws] == word;
      return joins, words;
    }
    var stop, ws', y, l, j1, w1, nx := ChunkStepLaid(m, cfg, startY, word, ws, cursorY, log, joins, words, done);
    jn, wd := joins, words;
    if !stop {
      jn, wd := ChunkTurnsLaid(m, cfg, startY, word, ws', y, l, j1, w1, done, t);
    }
  }

  /** Flushing the line buffer on the row span under the cursor: an empty
      buffer changes nothing, a line that would reach below bottomY cuts the
      pass short, and a printed line is placed, closes with a boundary and
      renders exactly what was pending. */
  lemma FlushLaid(m: Metrics, cfg: Config, startY: int, span: Span, cursorY: int, line: string,
                  log: seq<Print>, joins: seq<bool>, words: seq<string>)
    returns (stop: bool, y: int, l: seq<Print>, jn: seq<bool>, wd: seq<string>)
    requires Row(cfg, cursorY) == Some(span)
    requires Printed(m, cfg, startY, cursorY, log, joins) && Closed(log, joins)
    requires LineFits(m, cfg, cursorY, line)
    requires SplitsWide(m, cfg, log, joins, words, Render(log, joins))
    ensures stop ==> FlushLine(m, cfg, span.xLeft, cursorY, line, log) == Ended(log, cursorY, line)
    ensures stop ==> Cut(m, cfg, startY, log, joins, cursorY, line, Render(log, joins) + Pending(line))
    ensures !stop ==> FlushLine(m, cfg, span.xLeft, cursorY, line, log) == Going(y, [], l)
    ensures !stop ==> Printed(m, cfg, startY, y, l, jn) && Closed(l, jn)
    ensures !stop ==> Render(l, jn) == Render(log, joins) + Pending(line)
    ensures !stop ==> SplitsWide(m, cfg, l, jn, wd, Render(l, jn))
  {
    if line == [] {
      NothingPending(Render(log, joins));
      return false, cursorY, log, joins, words;
    }
    if cursorY + m(line, cfg.textSize).h > cfg.bottomY {
      Extends(Render(log, joins) + line, " ");
      return true, cursorY, log, joins, words;
    }
    var pr := Print(span.xLeft, cursorY, line);
    PrintedAppend(m, cfg, startY, cursorY, log, joins, pr, true);
    FlushRendered(log, joins, pr);
    Extends(Render(log, joins), Pending(line));
    SplitsAppend(m, cfg, log, joins, words, Render(log, joins), pr, true, line, Render(log + [pr], joins + [true]));
    return false, cursorY + m(line, cfg.textSize).h + cfg.lineGap, log + [pr], joins + [true], words + [line];
  }

  /** Breaking the line before a word: the pending line, once printed, is
      placed and closes with a boundary; the fresh row has a span.
      Otherwise the pass is cut short. */
  lemma LineBreakLaid(m: Metrics, cfg: Config, startY: int, span: Span, cursorY: int, line: string,
                      log: seq<Print>, joins: seq<bool>, words: seq<string>)
    returns (stop: bool, y: int, s: Span, l: seq<Print>, jn: seq<bool>, wd: seq<string>, next: string)
    requires Row(cfg, cursorY) == Some(span)
    requires Printed(m, cfg, startY, cursorY, log, joins) && Closed(log, joins)
    requires LineFits(m, cfg, cursorY, line)
    requires SplitsWide(m, cfg, log, joins, words, Render(log, joins))
    ensures stop ==> LineBreak(m, cfg, span, cursorY, line, log) == Broken(l, y, next)
    ensures stop ==> Cut(m, cfg, startY, l, jn, y, next, Render(log, joins) + Pending(line))
    ensures stop ==> SplitsWide(m, cfg, l, jn, wd, Render(log, joins) + Pending(line))
    ensures !stop ==> LineBreak(m, cfg, span, cursorY, line, log) == Fresh(y, s, l)
    ensures !stop ==> Printed(m, cfg, startY, y, l, jn) && Closed(l, jn) && Row(cfg, y) == Some(s)
    ensures !stop ==> Render(l, jn) == Render(log, joins) + Pending(line)
    ensures !stop ==> SplitsWide(m, cfg, l, jn, wd, Render(l, jn))
  {
    next := [];
    if line == [] {
      NothingPending(Render(log, joins));
      return false, cursorY, span, log, joins, words, next;
    }
    Extends(Render(log, joins), Pending(line));
    stop, y, l, jn, wd := FlushLaid(m, cfg, startY, span, cursorY, line, log, joins, words);
    s := span;
    if stop {
      y, l, jn, wd, next := cursorY, log, joins, words, line;
      SplitsWithin(m, cfg, log, joins, words, Render(log, joins), Render(log, joins) + Pending(line));
    } else if Row(cfg, y).None? {
      stop := true;
      assert Render(l, jn) + next == Render(l, jn);
    } else {
      s := Row(cfg, y).value;
    }
  }

  /** One word: what the draw pass prints for it stays laid out, and the
      printed lines with the pending line read back as the words so far
      followed by this one; when the pass is cut short, a prefix of that. The
      word is cut into chunks only when it is wider than its fresh row. */
  lemma WordTurnLaid(m: Metrics, cfg: Config, startY: int, span: Span, word: string, cursorY: int,
                     line: string, log: seq<Print>, joins: seq<bool>, words: seq<string>, done: string)
    returns (stop: bool, y: int, ln: string, l: seq<Print>, jn: seq<bool>, wd: seq<string>, next: string)
    requires word != [] && NoSpace(word)
    requires Row(cfg, cursorY) == Some(span)
    requires Printed(m, cfg, startY, cursorY, log, joins) && Closed(log, joins)
    requires LineFits(m, cfg, cursorY, line)
    requires Render(log, joins) + Pending(line) == done
    requires SplitsWide(m, cfg, log, joins, words, Render(log, joins))
    ensures stop ==> WordTurn(m, cfg, span, word, cursorY, line, log) == Ended(l, y, next)
    ensures stop ==> Cut(m, cfg, startY, l, jn, y, next, done + word + " ")
    ensures stop ==> SplitsWide(m, cfg, l, jn, wd, done + word + " ")
    ensures !stop ==> WordTurn(m, cfg, span, word, cursorY, line, log) == Going(y, ln, l)
    ensures !stop ==> Printed(m, cfg, startY, y, l, jn) && Closed(l, jn) && LineFits(m, cfg, y, ln)
    ensures !stop ==> Render(l, jn) + Pending(ln) == done + word + " "
    ensures !stop ==> SplitsWide(m, cfg, l, jn, wd, Render(l, jn))
  {
    var candidate := if line != [] then line + " " + word else word;
    if m(candidate, cfg.textSize).w <= span.Width() {
      WordJoined(Render(log, joins), line, word);
      return false, cursorY, candidate, log, joins, words, [];
    }
    var s: Span;
    stop, y, s, l, jn, wd, next := LineBreakLaid(m, cfg, startY, span, cursorY, line, log, joins, words);
    ln := [];
    Extends(done, word + " ");
    if stop {
      CutWithin(m, cfg, startY, l, jn, wd, y, next, done, done + word + " ");
    } else if m(word, cfg.textSize).w <= s.Width() {
      WordPending(Render(l, jn), word);
      ln := word;
    } else {
      ChunksRendered(l, jn, done, word, 0);
      SplitsWithin(m, cfg, l, jn, wd, Render(l, jn), done + word + " ");
      var t := ChunkTurns(m, cfg, word, 0, y, l);
      jn, wd := ChunkTurnsLaid(m, cfg, startY, word, 0, y, l, jn, wd, done, t);
      stop, y, l := t.Ended?, t.y, t.log;
      next := if t.Ended? then t.next else [];
      NothingPending(Render(l, jn));
    }
  }

  /** A line break: the pending line, once printed, is placed and closes with
      a boundary, and the cursor moves down by the line gap. Otherwise the
      pass is cut short. */
  lemma NewlineTurnLaid(m: Metrics, cfg: Config, startY: int, cursorY: int, line: string,
                        log: seq<Print>, joins: seq<bool>, words: seq<string>)
    returns (stop: bool, y: int, l: seq<Print>, jn: seq<bool>, wd: seq<string>, next: string)
    requires Printed(m, cfg, startY, cursorY, log, joins) && Closed(log, joins)
    requires LineFits(m, cfg, cursorY, line)
    requires SplitsWide(m, cfg, log, joins, words, Render(log, joins))
    ensures stop ==> NewlineTurn(m, cfg, cursorY, line, log) == Ended(l, y, next)
    ensures stop ==> Cut(m, cfg, startY, l, jn, y, next, Render(log, joins) + Pending(line))
    ensures stop ==> SplitsWide(m, cfg, l, jn, wd, Render(log, joins) + Pending(line))
    ensures !stop ==> NewlineTurn(m, cfg, cursorY, line, log) == Going(y, [], l)
    ensures !stop ==> Printed(m, cfg, startY, y, l, jn) && Closed(l, jn)
    ensures !stop ==> Render(l, jn) == Render(log, joins) + Pending(line)
    ensures !stop ==> SplitsWide(m, cfg, l, jn, wd, Render(l, jn))
  {
    Extends(Render(log, joins), Pending(line));
    SplitsWithin(m, cfg, log, joins, words, Render(log, joins), Render(log, joins) + Pending(line));
    if Row(cfg, cursorY).None? {
      assert Render(log, joins) + [] == Render(log, joins);
      return true, cursorY, log, joins, words, [];
    }
    stop, y, l, jn, wd := FlushLaid(m, cfg, startY, Row(cfg, cursorY).value, cursorY, line, log, joins, words);
    next := line;
    if stop {
      y, l, jn, wd := cursorY, log, joins, words;
    } else {
      PrintedGap(m, cfg, startY, y, l, jn);
      y := y + cfg.lineGap;
    }
  }

  /** The end of the text: the last line, when printed, is placed and closes
      with a boundary, and everything pending is read back; otherwise the
      pass is cut short before it. */
  lemma LastLineLaid(m: Metrics, cfg: Config, startY: int, cursorY: int, line: string,
                     log: seq<Print>, joins: seq<bool>, words: seq<string>)
    returns (l: seq<Print>, jn: seq<bool>, wd: seq<string>, cut: bool, stopY: int, next: string)
    requires Printed(m, cfg, startY, cursorY, log, joins) && Closed(log, joins)
    requires LineFits(m, cfg, cursorY, line)
    requires SplitsWide(m, cfg, log, joins, words, Render(log, joins))
    ensures LastLine(m, cfg, cursorY, line, log) == (if cut then Stopped(l, stopY, next) else Finished(l))
    ensures Halted(m, cfg, startY, l, jn, wd, Render(log, joins) + Pending(line))
    ensures cut ==> Cut(m, cfg, startY, l, jn, stopY, next, Render(log, joins) + Pending(line))
    ensures !cut ==> Render(l, jn) == Render(log, joins) + Pending(line)
  {
    l, jn, wd, cut, stopY, next := log, joins, words, false, cursorY, [];
    Extends(Render(log, joins), Pending(line));
    SplitsWithin(m, cfg, log, joins, words, Render(log, joins), Render(log, joins) + Pending(line));
    if line == [] {
      NothingPending(Render(log, joins));
    } else {
      var stop, y, l', jn', wd' := FlushLaid(m, cfg, startY, Row(cfg, cursorY).value, cursorY, line, log, joins, words);
      if stop {
        cut, next := true, line;
      } else {
        l, jn, wd := l', jn', wd';
      }
    }
  }

  /** The draw pass from a word boundary p: the lines it prints by the end
      stay laid out and read back as the spaced words of the whole text, or
      a prefix of them when the pass is cut short. */
  lemma {:induction false} DrawScanLaid(m: Metrics, cfg: Config, startY: int, text: string, p: nat,
                                        cursorY: int, line: string, log: seq<Print>, joins: seq<bool>,
                                        words: seq<string>)
    returns (r: seq<Print>, jn: seq<bool>, wd: seq<string>, cut: bool, stopY: int, next: string)
    requires p <= |text| && AtBoundary(text, p)
    requires Printed(m, cfg, startY, cursorY, log, joins) && Closed(log, joins)
    requires LineFits(m, cfg, cursorY, line)
    requires Render(log, joins) + Pending(line) == Spaced(Words(text[..p]))
    requires SplitsWide(m, cfg, log, joins, words, Render(log, joins))
    ensures DrawScan(m, cfg, text, p, cursorY, line, log) == (if cut then Stopped(r, stopY, next) else Finished(r))
    ensures Halted(m, cfg, startY, r, jn, wd, Spaced(Words(text)))
    ensures cut ==> Cut(m, cfg, startY, r, jn, stopY, next, Spaced(Words(text)))
    ensures !cut ==> Render(r, jn) == Spaced(Words(text))
    decreases |text| - p, 1
  {
    SpacesSkipped(text, p);
    var q := SpacesEnd(text, p);
    if q == |text| {
      assert text[..q] == text;
      r, jn, wd, cut, stopY, next := LastLineLaid(m, cfg, startY, cursorY, line, log, joins, words);
    } else {
      DrawScanSkips(m, cfg, text, p, cursorY, line, log);
      if text[q] == '\n' {
        r, jn, wd, cut, stopY, next := NewlineAtLaid(m, cfg, startY, text, q, cursorY, line, log, joins, words);
      } else {
        r, jn, wd, cut, stopY, next := WordAtLaid(m, cfg, startY, text, q, cursorY, line, log, joins, words);
      }
    }
  }

  /** The draw pass from a line break at q. */
  lemma NewlineAtLaid(m: Metrics, cfg: Config, startY: int, text: string, q: nat,
                      cursorY: int, line: string, log: seq<Print>, joins: seq<bool>, words: seq<string>)
    returns (r: seq<Print>, jn: seq<bool>, wd: seq<string>, cut: bool, stopY: int, next: string)
    requires q < |text| && text[q] == '\n' && AtBoundary(text, q)
    requires Printed(m, cfg, startY, cursorY, log, joins) && Closed(log, joins)
    requires LineFits(m, cfg, cursorY, line)
    requires Render(log, joins) + Pending(line) == Spaced(Words(text[..q]))
    requires SplitsWide(m, cfg, log, joins, words, Render(log, joins))
    ensures DrawScan(m, cfg, text, q, cursorY, line, log) == (if cut then Stopped(r, stopY, next) else Finished(r))
    ensures Halted(m, cfg, startY, r, jn, wd, Spaced(Words(text)))
    ensures cut ==> Cut(m, cfg, startY, r, jn, stopY, next, Spaced(Words(text)))
    ensures !cut ==> Render(r, jn) == Spaced(Words(text))
    decreases |text| - q, 0
  {
    var stop, y, l, j1, w1, nx := NewlineAtTurn(m, cfg, startY, text, q, cursorY, line, log, joins, words);
    if stop {
      r, jn, wd, cut, stopY, next := l, j1, w1, true, y, nx;
    } else {
      r, jn, wd, cut, stopY, next := DrawScanLaid(m, cfg, startY, text, q + 1, y, [], l, j1, w1);
    }
  }

  /** The line break at q itself: the pass ends there, laid out and cut
      short within the whole text, or goes on after it with the pending
      line printed and nothing pending. */
  lemma NewlineAtTurn(m: Metrics, cfg: Config, startY: int, text: string, q: nat,
                      cursorY: int, line: string, log: seq<Print>, joins: seq<bool>, words: seq<string>)
    returns (stop: bool, y: int, l: seq<Print>, jn: seq<bool>, wd: seq<string>, next: string)
    requires q < |text| && text[q] == '\n' && AtBoundary(text, q)
    requires Printed(m, cfg, startY, cursorY, log, joins) && Closed(log, joins)
    requires LineFits(m, cfg, cursorY, line)
    requires Render(log, joins) + Pending(line) == Spaced(Words(text[..q]))
    requires SplitsWide(m, cfg, log, joins, words, Render(log, joins))
    ensures stop ==> DrawScan(m, cfg, text, q, cursorY, line, log) == Stopped(l, y, next)
    ensures stop ==> Halted(m, cfg, startY, l, jn, wd, Spaced(Words(text)))
    ensures stop ==> Cut(m, cfg, startY, l, jn, y, next, Spaced(Words(text)))
    ensures !stop ==> DrawScan(m, cfg, text, q, cursorY, line, log) == DrawScan(m, cfg, text, q + 1, y, [], l)
    ensures !stop ==> Printed(m, cfg, startY, y, l, jn) && Closed(l, jn)
    ensures !stop ==> Render(l, jn) + Pending([]) == Spaced(Words(text[..q + 1]))
    ensures !stop ==> SplitsWide(m, cfg, l, jn, wd, Render(l, jn))
  {
    DrawScanAtNewline(m, cfg, text, q, cursorY, line, log);
    stop, y, l, jn, wd, next := NewlineTurnLaid(m, cfg, startY, cursorY, line, log, joins, words);
    if stop {
      CutInText(m, cfg, startY, text, q, l, jn, wd, y, next);
    } else {
      ReadSep(text, q);
      NothingPending(Render(l, jn));
    }
  }

  /** The draw pass from the word that starts at q. */
  lemma WordAtLaid(m: Metrics, cfg: Config, startY: int, text: string, q: nat,
                   cursorY: int, line: string, log: seq<Print>, joins: seq<bool>, words: seq<string>)
    returns (r: seq<Print>, jn: seq<bool>, wd: seq<string>, cut: bool, stopY: int, next: string)
    requires q < |text| && !IsSep(text[q]) && AtBoundary(text, q)
    requires Printed(m, cfg, startY, cursorY, log, joins) && Closed(log, joins)
    requires LineFits(m, cfg, cursorY, line)
    requires Render(log, joins) + Pending(line) == Spaced(Words(text[..q]))
    requires SplitsWide(m, cfg, log, joins, words, Render(log, joins))
    ensures DrawScan(m, cfg, text, q, cursorY, line, log) == (if cut then Stopped(r, stopY, next) else Finished(r))
    ensures Halted(m, cfg, startY, r, jn, wd, Spaced(Words(text)))
    ensures cut ==> Cut(m, cfg, startY, r, jn, stopY, next, Spaced(Words(text)))
    ensures !cut ==> Render(r, jn) == Spaced(Words(text))
    decreases |text| - q, 0
  {
    DrawScanAtWord(m, cfg, text, q, cursorY, line, log);
    SpacedWordsPrefix(text, q);
    if Row(cfg, cursorY).None? {
      Extends(Render(log, joins), Pending(line));
      SplitsWithin(m, cfg, log, joins, words, Render(log, joins), Spaced(Words(text[..q])));
      assert Render(log, joins) + [] == Render(log, joins);
      CutWithin(m, cfg, startY, log, joins, words, cursorY, [], Spaced(Words(text[..q])), Spaced(Words(text)));
      return log, joins, words, true, cursorY, [];
    }
    var span := Row(cfg, cursorY).value;
    var e := WordStop(text, q);
    WordRead(text, q);
    ReadWord(text, q, e);
    var stop, y, ln, l, j1, w1, nx :=
      WordTurnLaid(m, cfg, startY, span, text[q..e], cursorY, line, log, joins, words, Spaced(Words(text[..q])));
    if stop {
      CutInText(m, cfg, startY, text, e, l, j1, w1, y, nx);
      r, jn, wd, cut, stopY, next := l, j1, w1, true, y, nx;
    } else {
      r, jn, wd, cut, stopY, next := DrawScanLaid(m, cfg, startY, text, e, y, ln, l, j1, w1);
    }
  }

  /** What the draw pass prints from row startY:
      - every line placed on its row's span and ending at or above bottomY;
      - the lines one below the other when the line gap is not negative;
      - the lines reading back as the words of the text joined by single
        spaces, only chunks of one word joined without a space;
      - a word cut into chunks only when it alone is wider than the row of its
        first chunk;
      - every word printed unless the pass was cut short, at a row with no
        span or before a line that would reach below bottomY, and then a
        prefix of the words followed by the text it did not print;
      - nothing at all for a text without words. */
  lemma DrawnLinesLaid(m: Metrics, cfg: Config, text: string, startY: int)
    returns (joins: seq<bool>, words: seq<string>)
    ensures var halt := DrawEnd(m, cfg, text, startY);
      var log := halt.log;
      && (forall i :: 0 <= i < |log| ==> Placed(m, cfg, log[i]))
      && (cfg.lineGap >= 0 ==> Stacked(m, cfg, startY, log))
      && ReformsPrefix(log, joins, text)
      && SplitsWide(m, cfg, log, joins, words, Spaced(Words(text)))
      && (halt.Finished? ==> Render(log, joins) == Spaced(Words(text)))
      && (halt.Stopped? ==> Cut(m, cfg, startY, log, joins, halt.y, halt.next, Spaced(Words(text))))
      && (Words(text) == [] ==> log == [])
  {
    assert text[..0] == [];
    var log, cut, stopY, next;
    log, joins, words, cut, stopY, next := DrawScanLaid(m, cfg, startY, text, 0, startY, [], [], [], []);
    LaidMeans(m, cfg, startY, log, joins);
    assert text[..|text|] == text;
    Stop(text, |text|, log, joins);
  }
}
