/** What the protocols have in common. */
module Common {

  datatype Option<T> = None | Some(value: T)

  /** All that thread t does to a mutex whose owner was m: leave it alone, take it when it is free, or
      free it when it is its own. */
  predicate OnlyOwn(m: Option<nat>, m': Option<nat>, t: nat) {
    m' == m || (m.None? && m' == Some(t)) || (m == Some(t) && m'.None?)
  }
}
