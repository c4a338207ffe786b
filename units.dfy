/** Conversion of a byte count (or a byte rate) into a human-readable
    memory unit, with 1024 as the scale factor between units. */
module Units {

  /** The units a report can show, smallest first. */
  datatype Unit = Bytes | KB | MB | GB | TB

  /** The unit's name as it appears in a report. */
  function Name(u: Unit): string
  {
    match u
    case Bytes => "Bytes"
    case KB => "KB"
    case MB => "MB"
    case GB => "GB"
    case TB => "TB"
  }

  /** Position of a unit in the order Bytes < KB < MB < GB < TB. */
  function Rank(u: Unit): nat
  {
    match u
    case Bytes => 0
    case KB => 1
    case MB => 2
    case GB => 3
    case TB => 4
  }

  const KiB: real := 1024.0
  const MiB: real := KiB * 1024.0
  const GiB: real := MiB * 1024.0
  const TiB: real := GiB * 1024.0

  /** How many bytes one of the unit stands for. */
  function Threshold(u: Unit): real
  {
    match u
    case Bytes => 1.0
    case KB => KiB
    case MB => MiB
    case GB => GiB
    case TB => TiB
  }

  /** A value together with the unit it is expressed in. */
  datatype Amount = Amount(value: real, unit: Unit)

  /** byte_to_mem_units: the largest of TB, GB, MB, KB whose threshold does
      not exceed `bytes`, and `bytes` divided by that threshold; below one
      KB the byte count itself. Floating point is modelled by exact reals,
      which represent these power-of-two thresholds exactly. */
  function ByteToMemUnits(bytes: real): Amount
  {
    if bytes >= TiB then Amount(bytes / TiB, TB)
    else if bytes >= GiB then Amount(bytes / GiB, GB)
    else if bytes >= MiB then Amount(bytes / MiB, MB)
    else if bytes >= KiB then Amount(bytes / KiB, KB)
    else Amount(bytes, Bytes)
  }

  /** The conversion picks the largest unit the input reaches and scales
      the input down by exactly that unit's threshold. */
  lemma MemUnitsCorrect(bytes: real, r: Amount)
    requires r == ByteToMemUnits(bytes)
    // the value, scaled back, is the input: nothing is lost
    ensures r.value * Threshold(r.unit) == bytes
    // the chosen unit is reached by the input ...
    ensures r.unit != Bytes ==> Threshold(r.unit) <= bytes
    // ... and no larger unit is
    ensures forall u :: Rank(r.unit) < Rank(u) ==> bytes < Threshold(u)
    ensures r.unit == Bytes ==> r.value == bytes && bytes < KiB
    ensures r.unit in {KB, MB, GB} ==> 1.0 <= r.value < 1024.0
    ensures r.unit == TB ==> 1.0 <= r.value
  {
  }

  /** Worked conversions at and around the unit thresholds. */
  lemma ConversionExamples()
    ensures ByteToMemUnits(1023.0) == Amount(1023.0, Bytes)
    ensures ByteToMemUnits(1024.0) == Amount(1.0, KB)
    ensures ByteToMemUnits(1536.0) == Amount(1.5, KB)
    ensures ByteToMemUnits(3.0 * 1024.0 * 1024.0) == Amount(3.0, MB)
    ensures ByteToMemUnits(5000.0) == Amount(5000.0 / 1024.0, KB)
  {
  }

  /** Converting is monotone in the unit: more bytes never give a smaller unit. */
  lemma UnitMonotone(a: real, b: real)
    requires a <= b
    ensures Rank(ByteToMemUnits(a).unit) <= Rank(ByteToMemUnits(b).unit)
  {
  }
}
