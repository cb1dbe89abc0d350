/** The configuration record and the alignment choice of CircleText.h. */
module CircleTextConfig {
  import opened Optional
  import opened Geometry

  /** Where the wrapped block sits vertically inside its band. */
  datatype Pos = Top | Center | Bottom

  /** Circle centre and radius, the reserved band [topY, bottomY], the inset on
      each side of a row, the extra space between lines, and the text size and
      colour. The source keeps these in 16-bit and 8-bit fields; here they are
      unbounded integers. */
  datatype Config = Config(
    cx: int, cy: int, r: int,
    topY: int, bottomY: int,
    margin: int, lineGap: int,
    textSize: nat, color: nat)

  /** The row y of the circle, inset by the margin. */
  function Row(cfg: Config, y: int): Option<Span>
  {
    RowBounds(cfg.cx, cfg.cy, cfg.r, y, cfg.margin)
  }

  /** The band is a non-empty stretch of rows inside the circle's vertical extent. */
  ghost predicate BandInsideCircle(cfg: Config)
  {
    cfg.r > 0 && cfg.topY < cfg.bottomY && cfg.cy - cfg.r <= cfg.topY && cfg.bottomY <= cfg.cy + cfg.r
  }

  /** Every row of the band has a usable span. */
  ghost predicate BandUsable(cfg: Config)
  {
    forall y :: cfg.topY <= y <= cfg.bottomY ==> Row(cfg, y).Some?
  }

  /** The defaults of the record: the 240x240 display, circle centre (120, 120)
      radius 118, band [20, 220], margin 6, line gap 4, text size 2, white. */
  function DefaultConfig(): (c: Config)
    ensures BandInsideCircle(c)
    ensures c.cy - c.r == 2 && c.cy + c.r == 238
    ensures c.margin >= 0 && c.lineGap >= 0 && c.textSize >= 1
  {
    Config(cx := 120, cy := 120, r := 118, topY := 20, bottomY := 220,
           margin := 6, lineGap := 4, textSize := 2, color := 0xFFFF)
  }

  /** The alignment drawWithConfig uses when the caller gives none. */
  function DefaultPos(): Pos { Top }

  /** A squared offset is bounded by the squared bound on the offset. */
  lemma SquareBound(d: int, b: int)
    requires 0 <= b && -b <= d <= b
    ensures d * d <= b * b
  {
    var a := if d < 0 then -d else d;
    assert d * d == a * a;
    assert a * a <= a * b;
    assert a * b <= b * b;
  }

  /** The rounded half-chord exceeds the margin once the squared half-chord
      exceeds margin * margin + margin. */
  lemma HalfChordExceeds(n: nat, margin: nat)
    requires n > margin * margin + margin
    ensures RoundSqrt(n) > margin
  {
    var d := RoundSqrt(n);
    RoundSqrtCorrect(n);
    assert (margin + 1) * (margin + 1) - (margin + 1) == margin * margin + margin;
    if d <= margin {
      SquareGapGrows(d, margin + 1);
    }
  }

  /** A band that stays within `reach` rows of the centre, where the squared
      half-chord still exceeds margin * margin + margin, is usable on every row. */
  lemma {:induction false} BandUsableWithin(cfg: Config, reach: nat)
    requires cfg.margin >= 0
    requires cfg.cy - reach <= cfg.topY && cfg.bottomY <= cfg.cy + reach
    requires cfg.r * cfg.r - reach * reach > cfg.margin * cfg.margin + cfg.margin
    ensures BandUsable(cfg)
  {
    forall y | cfg.topY <= y <= cfg.bottomY
      ensures Row(cfg, y).Some?
    {
      SquareIsProduct(cfg.r);
      SquareIsProduct(y - cfg.cy);
      SquareBound(y - cfg.cy, reach);
      HalfChordExceeds(cfg.r * cfg.r - (y - cfg.cy) * (y - cfg.cy), cfg.margin);
    }
  }

  /** Every row of the default band, at most 100 rows from the centre, keeps a
      usable span. */
  lemma DefaultBandUsable()
    ensures BandUsable(DefaultConfig())
  {
    BandUsableWithin(DefaultConfig(), 100);
  }
}
