/** "EVT:BOOT" in the status band with a fixed-pitch font of 12 by 16 pixel
    glyphs. The measure pass starts on row 6, whose span [98, 142] holds only
    "EVT", and moves the rest, ":BOOT", to row 24: the block measures 36 rows.
    Aligned to the bottom, the draw pass starts on row 16, where the span
    [72, 168] is 96 pixels wide, exactly the width of the whole word: the two
    passes break the same text differently. */
module WorkedExample {
  import opened Optional
  import opened Geometry
  import opened Gfx
  import opened CircleTextConfig
  import opened MeasureSpec
  import opened DrawSpec
  import opened CircleText
  import opened TftTextCfg

  const Boot: string := "EVT:BOOT"

  /** On row 6 (44 pixels) the word is cut after its third character, and on
      row 24 (122 pixels) its remaining five characters fit. */
  lemma BootChunks()
    ensures FitCount(FixedPitch, 2, Boot[0..], 44) == 3
    ensures FitCount(FixedPitch, 2, Boot[3..], 122) == 5
  {
    assert Boot[0..] == Boot;
    assert FixedPitch(Boot[..4], 2).w == 48;
    var rest := Boot[3..];
    assert FitFrom(FixedPitch, 2, rest, 122, 5) == 5;
    assert FitFrom(FixedPitch, 2, rest, 122, 4) == 5 by { assert FixedPitch(rest[..5], 2).w == 60; }
    assert FitFrom(FixedPitch, 2, rest, 122, 3) == 5 by { assert FixedPitch(rest[..4], 2).w == 48; }
    assert FitFrom(FixedPitch, 2, rest, 122, 2) == 5 by { assert FixedPitch(rest[..3], 2).w == 36; }
    assert FitFrom(FixedPitch, 2, rest, 122, 1) == 5 by { assert FixedPitch(rest[..2], 2).w == 24; }
    assert FitFrom(FixedPitch, 2, rest, 122, 0) == 5 by { assert FixedPitch(rest[..1], 2).w == 12; }
  }

  /** The rows the chunks of the word land on, and the text size of the band. */
  lemma StatusRows()
    ensures Row(Status(), 6) == Some(Span(98, 142)) && Row(Status(), 24) == Some(Span(59, 181))
    ensures Status().textSize == 2 && Status().bottomY == 52
  {
    StatusBandRows();
  }

  /** The two chunks of the word and their heights: 16 rows each. */
  lemma BootParts()
    ensures Boot[0..] == Boot && Boot[0..3] == "EVT" && Boot[3..8] == ":BOOT"
    ensures LineHeight(FixedPitch, Status(), "EVT") == 16 && LineHeight(FixedPitch, Status(), ":BOOT") == 16
  {
  }

  /** The measure pass flushes "EVT" on row 6 and goes on from row 24. */
  lemma BootFirstChunk()
    ensures Chunks(FixedPitch, Status(), Boot, 0, 6) == Chunks(FixedPitch, Status(), Boot, 3, 24)
  {
    StatusRows();
    BootChunks();
    BootParts();
  }

  /** It flushes ":BOOT" on row 24, which ends the word on row 42. */
  lemma BootSecondChunk()
    ensures Chunks(FixedPitch, Status(), Boot, 3, 24) == 42
  {
    StatusRows();
    BootChunks();
    BootParts();
    assert Chunks(FixedPitch, Status(), Boot, 8, 42) == 42;
  }

  /** The measure pass flushes "EVT" on row 6 and ":BOOT" on row 24, each
      with the line gap, leaving the cursor on row 42. */
  lemma BootChunkLoop()
    ensures Chunks(FixedPitch, Status(), Boot, 0, 6) == 42
  {
    BootFirstChunk();
    BootSecondChunk();
  }

  /** The text is one word, with no space before it. */
  lemma BootIsOneWord()
    ensures SpacesEnd(Boot, 0) == 0 && WordStop(Boot, 0) == 8 && Boot[0..8] == Boot
  {
    assert WordStop(Boot, 8) == 8;
  }

  /** The word is wider than row 6, so it is chunked from there. */
  lemma BootWordStep()
    ensures WordStep(FixedPitch, Status(), Span(98, 142), Boot, 6, []) == Go(42, [])
  {
    BootChunkLoop();
  }

  /** The measure pass: the word does not fit row 6, so it is chunked; the
      cursor ends on row 42 and the height is 36. */
  lemma BootMeasuredHeight()
    ensures MeasuredHeight(FixedPitch, Status(), Boot) == 36
  {
    StatusBandRows();
    BootIsOneWord();
    BootWordStep();
    assert Scan(FixedPitch, Status(), Boot, 8, 42, []) == 42;
  }

  /** The draw pass, aligned to the bottom of the band, starts on row 16,
      whose span is as wide as the whole word. */
  lemma BootDrawnWhole()
    ensures StartY(Status(), MeasuredHeight(FixedPitch, Status(), Boot), Bottom) == 16
    ensures Row(Status(), 16) == Some(Span(72, 168))
    ensures FixedPitch(Boot, 2).w == Span(72, 168).Width()
    ensures FixedPitch(Boot, 2).w > Span(98, 142).Width()
  {
    StatusBandRows();
    BootMeasuredHeight();
  }

  /** "EVT" (16 rows high) is printed on row 6 and moves the cursor, with the
      line gap, to row 24. */
  lemma BootFlushFirst()
    ensures FlushLine(FixedPitch, Status(), 98, 6, "EVT", []) == Going(24, [], [Print(98, 6, "EVT")])
  {
    assert LineHeight(FixedPitch, Status(), "EVT") == 16;
  }

  /** ":BOOT" is printed on row 24 and moves the cursor to row 42. */
  lemma BootFlushSecond()
    ensures FlushLine(FixedPitch, Status(), 59, 24, ":BOOT", [Print(98, 6, "EVT")]) ==
            Going(42, [], [Print(98, 6, "EVT"), Print(59, 24, ":BOOT")])
  {
    assert LineHeight(FixedPitch, Status(), ":BOOT") == 16;
  }

  /** The draw pass prints "EVT" at the left end of row 6 and goes on from
      row 24. */
  lemma BootDrawFirstChunk()
    ensures ChunkTurns(FixedPitch, Status(), Boot, 0, 6, []) ==
            ChunkTurns(FixedPitch, Status(), Boot, 3, 24, [Print(98, 6, "EVT")])
  {
    StatusRows();
    BootChunks();
    BootParts();
    BootFlushFirst();
  }

  /** It prints ":BOOT" at the left end of row 24, which ends the word with
      the cursor on row 42. */
  lemma BootDrawSecondChunk()
    ensures ChunkTurns(FixedPitch, Status(), Boot, 3, 24, [Print(98, 6, "EVT")]) ==
            Going(42, [], [Print(98, 6, "EVT"), Print(59, 24, ":BOOT")])
  {
    StatusRows();
    BootChunks();
    BootParts();
    BootFlushSecond();
    var l := [Print(98, 6, "EVT"), Print(59, 24, ":BOOT")];
    assert ChunkTurns(FixedPitch, Status(), Boot, 8, 42, l) == Going(42, [], l);
  }

  /** The draw pass's chunk loop from row 6 prints both chunks. */
  lemma BootDrawChunks()
    ensures ChunkTurns(FixedPitch, Status(), Boot, 0, 6, []) ==
            Going(42, [], [Print(98, 6, "EVT"), Print(59, 24, ":BOOT")])
  {
    BootDrawFirstChunk();
    BootDrawSecondChunk();
  }

  /** Aligned to the top, the draw pass prints "EVT" on row 6 and ":BOOT" on
      row 24, at x = 59 where the row's span begins, and reaches the end of
      the text. */
  lemma BootDrawnTop()
    ensures StartY(Status(), MeasuredHeight(FixedPitch, Status(), Boot), Top) == 6
    ensures DrawEnd(FixedPitch, Status(), Boot, 6) == Finished([Print(98, 6, "EVT"), Print(59, 24, ":BOOT")])
  {
    StatusBandRows();
    BootIsOneWord();
    BootDrawChunks();
    var l := [Print(98, 6, "EVT"), Print(59, 24, ":BOOT")];
    assert WordTurn(FixedPitch, Status(), Span(98, 142), Boot, 6, [], []) == Going(42, [], l);
    assert DrawScan(FixedPitch, Status(), Boot, 8, 42, [], l) == Finished(l);
  }

  /** On row 16 the whole word fits and stays pending. */
  lemma BootFitsRow16()
    ensures WordTurn(FixedPitch, Status(), Span(72, 168), Boot, 16, [], []) == Going(16, Boot, [])
  {
  }

  /** "EVT:BOOT" printed whole on row 16 moves the cursor to row 34. */
  lemma BootFlushWhole()
    ensures FlushLine(FixedPitch, Status(), 72, 16, Boot, []) == Going(34, [], [Print(72, 16, Boot)])
  {
    assert LineHeight(FixedPitch, Status(), Boot) == 16;
  }

  /** At the end of the text the pending word is printed on row 16. */
  lemma BootLastLine()
    ensures DrawScan(FixedPitch, Status(), Boot, 8, 16, Boot, []) == Finished([Print(72, 16, Boot)])
  {
    StatusBandRows();
    BootFlushWhole();
    assert LastLine(FixedPitch, Status(), 16, Boot, []) == Finished([Print(72, 16, Boot)]);
    assert SpacesEnd(Boot, 8) == 8;
  }

  /** Aligned to the bottom, the draw pass prints the whole word as one line
      at the left end of row 16 and reaches the end of the text. */
  lemma BootDrawnBottom()
    ensures DrawEnd(FixedPitch, Status(), Boot, 16) == Finished([Print(72, 16, Boot)])
  {
    StatusBandRows();
    BootIsOneWord();
    BootFitsRow16();
    BootLastLine();
  }
}
