/** The smaller and the larger of two amounts. */
module Numbers {
  function Min(a: real, b: real): real { if a <= b then a else b }
  function Max(a: real, b: real): real { if a < b then b else a }
}
