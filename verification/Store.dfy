/** The shared database, quarantine directory and process memory as one mutable object.
    A transaction reads and reassigns `pond`; a rolled-back transaction leaves it alone. */
module Store {
  import opened Schema

  class Store {
    var pond: Pond

    constructor (initial: Pond)
      ensures pond == initial
    {
      pond := initial;
    }
  }
}
