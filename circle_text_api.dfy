/** The entry points of CircleText.cpp: drawWrappedTextCircle, which sets the
    text size and colour, measures the block, picks the start row and runs the
    draw pass on the display; drawWithConfig, which draws with a given
    configuration; and the configuration setConfig stores for draw. */
module CircleTextApi {
  import opened Gfx
  import opened WordRuns
  import opened CircleTextConfig
  import opened MeasureSpec
  import opened DrawSpec
  import opened DrawLines
  import opened DrawLayout
  import opened CircleText

  /** Draws text into the band of cfg at the alignment pos. The lines it
      prints, DrawnLines from the start row, are appended to the display's
      record. The ghost results name the measured height, the start row, the
      joins of the printed lines, the words cut into chunks, and how the pass
      ended: at the end of the text, or early on a row, before a text. */
  method DrawWrappedTextCircle(gfx: Display, cfg: Config, text: string, pos: Pos)
    returns (ghost h: int, ghost startY: int, ghost log: seq<Print>, ghost joins: seq<bool>,
             ghost words: seq<string>, ghost halt: Halt)
    modifies gfx
    ensures gfx.textSize == cfg.textSize && gfx.color == cfg.color
    ensures gfx.prints == old(gfx.prints) + log
    ensures h == MeasuredHeight(gfx.measure, cfg, text) && startY == StartY(cfg, h, pos)
    ensures halt == DrawEnd(gfx.measure, cfg, text, startY) && log == halt.log
    ensures forall i :: 0 <= i < |log| ==> Placed(gfx.measure, cfg, log[i])
    ensures cfg.lineGap >= 0 ==> Stacked(gfx.measure, cfg, startY, log)
    ensures ReformsPrefix(log, joins, text)
    ensures SplitsWide(gfx.measure, cfg, log, joins, words, Spaced(Words(text)))
    ensures halt.Finished? ==> Render(log, joins) == Spaced(Words(text))
    ensures halt.Stopped? ==> Cut(gfx.measure, cfg, startY, log, joins, halt.y, halt.next, Spaced(Words(text)))
    ensures Words(text) == [] ==> log == []
  {
    gfx.textSize := cfg.textSize;
    gfx.color := cfg.color;
    var height := LayoutHeight(gfx.measure, cfg, text);
    var y := StartY(cfg, height, pos);
    var lines := DrawPass(gfx.measure, cfg, text, y);
    joins, words := DrawnLinesLaid(gfx.measure, cfg, text, y);
    gfx.prints := gfx.prints + lines;
    h, startY, log, halt := height, y, lines, DrawEnd(gfx.measure, cfg, text, y);
  }

  /** drawWithConfig: draws with the configuration given; the alignment
      defaults to Top. */
  method DrawWithConfig(gfx: Display, cfg: Config, text: string, pos: Pos := DefaultPos())
    returns (ghost startY: int, ghost log: seq<Print>, ghost joins: seq<bool>,
             ghost words: seq<string>, ghost halt: Halt)
    modifies gfx
    ensures gfx.textSize == cfg.textSize && gfx.color == cfg.color
    ensures gfx.prints == old(gfx.prints) + log
    ensures startY == StartY(cfg, MeasuredHeight(gfx.measure, cfg, text), pos)
    ensures halt == DrawEnd(gfx.measure, cfg, text, startY) && log == halt.log
    ensures forall i :: 0 <= i < |log| ==> Placed(gfx.measure, cfg, log[i])
    ensures cfg.lineGap >= 0 ==> Stacked(gfx.measure, cfg, startY, log)
    ensures ReformsPrefix(log, joins, text)
    ensures SplitsWide(gfx.measure, cfg, log, joins, words, Spaced(Words(text)))
    ensures halt.Finished? ==> Render(log, joins) == Spaced(Words(text))
    ensures halt.Stopped? ==> Cut(gfx.measure, cfg, startY, log, joins, halt.y, halt.next, Spaced(Words(text)))
    ensures Words(text) == [] ==> log == []
  {
    ghost var h;
    h, startY, log, joins, words, halt := DrawWrappedTextCircle(gfx, cfg, text, pos);
  }

  /** The module-wide configuration of CircleText.cpp, which setConfig
      replaces and draw uses; it starts as the record's defaults. */
  class Settings {
    var cfg: Config

    constructor ()
      ensures cfg == DefaultConfig()
    {
      cfg := DefaultConfig();
    }

    /** setConfig: the stored configuration becomes c. */
    method SetConfig(c: Config)
      modifies this
      ensures cfg == c
    {
      cfg := c;
    }

    /** draw: draws with the stored configuration, which it leaves as it is. */
    method Draw(gfx: Display, text: string, pos: Pos)
      returns (ghost startY: int, ghost log: seq<Print>, ghost joins: seq<bool>,
               ghost words: seq<string>, ghost halt: Halt)
      modifies gfx
      ensures unchanged(this)
      ensures gfx.textSize == cfg.textSize && gfx.color == cfg.color
      ensures gfx.prints == old(gfx.prints) + log
      ensures startY == StartY(cfg, MeasuredHeight(gfx.measure, cfg, text), pos)
      ensures halt == DrawEnd(gfx.measure, cfg, text, startY) && log == halt.log
      ensures forall i :: 0 <= i < |log| ==> Placed(gfx.measure, cfg, log[i])
      ensures cfg.lineGap >= 0 ==> Stacked(gfx.measure, cfg, startY, log)
      ensures ReformsPrefix(log, joins, text)
      ensures SplitsWide(gfx.measure, cfg, log, joins, words, Spaced(Words(text)))
      ensures halt.Finished? ==> Render(log, joins) == Spaced(Words(text))
      ensures halt.Stopped? ==> Cut(gfx.measure, cfg, startY, log, joins, halt.y, halt.next, Spaced(Words(text)))
      ensures Words(text) == [] ==> log == []
    {
      ghost var h;
      h, startY, log, joins, words, halt := DrawWrappedTextCircle(gfx, cfg, text, pos);
    }
  }
}
