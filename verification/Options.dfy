/** An optional value, as the program's `std::optional` and its nullable owners. */
module Options {
  datatype Option<+T> = None | Some(value: T)
  {
    function GetOr(default: T): T {
      if None? then default else value
    }
  }
}
