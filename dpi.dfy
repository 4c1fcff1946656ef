/** The DPI table, the stored DPI index and the status LED that reports the
    current sensor resolution. */
module Dpi {
  import opened Words

  /** KEYCHRON_DPI_OPTIONS: the resolutions DPI_CONFIG cycles through. */
  const DpiTable: seq<u16> := [1200, 2400, 3600, 5000]

  /** KEYCHRON_DPI_DEFAULT: the index restored by a factory reset. */
  const DefaultIndex: u8 := 0

  /** The lowest resolution the status LED reports at all. */
  const MinIndicatedCpi: u16 := 50

  /** The index that follows `index` when DPI_CONFIG is tapped. The sum is
      computed in C's promoted int, so even an unvalidated stored byte such
      as 255 lands back inside the table. */
  function NextIndex(index: u8): (r: u8)
    ensures r < |DpiTable|
    ensures index + 1 < |DpiTable| ==> r == index + 1
    ensures index + 1 == |DpiTable| ==> r == 0
    ensures (r - index - 1) % |DpiTable| == 0
  {
    (index + 1) % |DpiTable|
  }

  /** Colours the tri-colour status LED can be commanded to. */
  datatype StatusLed = LedOff | LedRed | LedGreen | LedBlue | LedWhite

  /** The colour that stands for table entry `i`. */
  function IndexColour(i: nat): StatusLed
    requires i < |DpiTable|
  {
    [LedWhite, LedBlue, LedGreen, LedRed][i]
  }

  /** `cpi` lies in the band of resolutions reported with entry `i`'s colour:
      above the previous entry (or at least 50 for the first) and at most
      entry `i`. */
  predicate InBand(i: nat, cpi: int)
    requires i < |DpiTable|
  {
    (if i == 0 then MinIndicatedCpi <= cpi else DpiTable[i - 1] < cpi) && cpi <= DpiTable[i]
  }

  /** The range test of led_dpi_indicators: the colour for the current
      resolution, or None when it lies outside every band (the LED then
      keeps its previous colour). */
  function DpiColour(cpi: u16): (c: Option<StatusLed>)
    ensures c.Some? <==> MinIndicatedCpi <= cpi <= DpiTable[|DpiTable| - 1]
  {
    if MinIndicatedCpi <= cpi <= DpiTable[0] then Some(LedWhite)
    else if DpiTable[0] < cpi <= DpiTable[1] then Some(LedBlue)
    else if DpiTable[1] < cpi <= DpiTable[2] then Some(LedGreen)
    else if DpiTable[2] < cpi <= DpiTable[3] then Some(LedRed)
    else None
  }

  /** The LED shows entry `i`'s colour exactly for the resolutions in
      entry `i`'s band. */
  lemma DpiColourBands(cpi: u16, i: nat)
    requires i < |DpiTable|
    ensures DpiColour(cpi) == Some(IndexColour(i)) <==> InBand(i, cpi)
  {
  }

  /** What the status LED shows after led_dpi_indicators, given what it
      showed before. */
  function Indicated(cpi: u16, before: StatusLed): StatusLed
  {
    match DpiColour(cpi)
    case Some(c) => c
    case None => before
  }

  /** Every table entry lights the LED in its own colour, and no two entries
      share one: the status LED identifies the selected index. */
  lemma TableColours(i: nat, j: nat)
    requires i < |DpiTable| && j < |DpiTable|
    ensures DpiColour(DpiTable[i]) == Some(IndexColour(i))
    ensures IndexColour(i) == IndexColour(j) ==> i == j
  {
  }

  /** The band edges: 1200 is white, 1201 and 2400 blue, 2401 green,
      5000 red; 49 and 6000 leave the LED as it was. */
  lemma BandEdges(before: StatusLed)
    ensures Indicated(50, before) == LedWhite && Indicated(1200, before) == LedWhite
    ensures Indicated(1201, before) == LedBlue && Indicated(2400, before) == LedBlue
    ensures Indicated(2401, before) == LedGreen && Indicated(3600, before) == LedGreen
    ensures Indicated(3601, before) == LedRed && Indicated(5000, before) == LedRed
    ensures Indicated(49, before) == before && Indicated(5001, before) == before
    ensures Indicated(6000, before) == before
  {
  }

  /** Commanding the indicator twice is the same as once. */
  lemma IndicatedIdempotent(cpi: u16, before: StatusLed)
    ensures Indicated(cpi, Indicated(cpi, before)) == Indicated(cpi, before)
  {
  }
}
