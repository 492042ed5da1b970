/** What several modules use. */
module Common {
  datatype Option<+T> = None | Some(value: T)

  function Abs(r: real): real { if r < 0.0 then -r else r }
}
