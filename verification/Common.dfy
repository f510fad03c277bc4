// Shared by all modules.
module Common {
  datatype Option<+T> = None | Some(value: T)

  function ToSet<T(==)>(items: seq<T>): set<T> {
    set x | x in items
  }

  // Bookkeeping of a loop that takes the members of a set one by one.
  lemma {:induction false} Visit<T>(all: set<T>, done: set<T>, todo: set<T>, x: T)
    requires done + todo == all && done !! todo && x in todo
    ensures (done + {x}) + (todo - {x}) == all && done + {x} !! todo - {x} && x in all && x !in done
  {
  }
}
