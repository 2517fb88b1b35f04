/** `Random.Shared.Next(minValue, maxValue)` of .NET, with the random draw passed in as a
    seed: the model of every random choice the games make. */
module Rand {
  import opened Wrappers

  /** .NET throws ArgumentOutOfRangeException when minValue > maxValue. */
  datatype Error = ArgumentOutOfRange

  /** The value drawn for `seed`: minValue when the bounds are equal, otherwise a value
      in [minValue, maxValue). */
  function Next(minValue: int, maxValue: int, seed: nat): (r: Result<int, Error>)
    ensures r.Err? <==> minValue > maxValue
    ensures r.Ok? && minValue < maxValue ==> minValue <= r.value < maxValue
    ensures minValue == maxValue ==> r == Ok(minValue)
  {
    if minValue > maxValue then Err(ArgumentOutOfRange)
    else if minValue == maxValue then Ok(minValue)
    else Ok(minValue + seed % (maxValue - minValue))
  }

  /** Every value of the range is drawn by some seed, so a seed parameter does not
      narrow what the source can pick. */
  lemma NextReachesAll(minValue: int, maxValue: int, v: int)
    requires minValue <= v < maxValue
    ensures Next(minValue, maxValue, v - minValue) == Ok(v)
  {
  }
}
