/** What several modules share. */
module Common {
  datatype Option<+T> = None | Some(value: T)

  const CRLF := "\r\n"

  function Pow2(k: nat): (p: nat)
    ensures p >= 1
  {
    if k == 0 then 1 else 2 * Pow2(k - 1)
  }
}
