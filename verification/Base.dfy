/** The two failure-carrying types every other module uses. */
module Base {

  datatype Option<+T> = None | Some(value: T) {
    function GetOr(default: T): T {
      if Some? then value else default
    }
  }

  datatype Result<+T, +E> = Ok(value: T) | Err(error: E)
}

/** Facts about finite sets that loops over map keys use. */
module Sets {
  lemma NothingLeft<T>(all: set<T>, done: set<T>)
    requires all - done == {} && done <= all
    ensures done == all
  {
    forall x | x in all ensures x in done {
      assert x !in all - done;
    }
  }

  /** A subset is no larger, and as large only if it is the whole set. */
  lemma {:induction false} SubsetSize<T>(part: set<T>, all: set<T>)
    requires part <= all
    ensures |part| <= |all| && (|part| == |all| <==> part == all)
  {
    if part != {} {
      var x :| x in part;
      SubsetSize(part - {x}, all - {x});
      assert part == (part - {x}) + {x} && all == (all - {x}) + {x};
    }
  }
}
