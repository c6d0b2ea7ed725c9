/** What the operating system may answer: the only facts about its calls the proofs rely on. */
module Os {

  lemma {:induction false} FreshExists(open: set<int>) returns (fd: int)
    ensures fd >= 0 && forall d :: d in open ==> d < fd
    decreases open
  {
    if d :| d in open {
      fd := FreshExists(open - {d});
      assert forall e :: e in open ==> e == d || e in open - {d};
      if fd <= d {
        fd := d + 1;
      }
    } else {
      fd := 0;
    }
  }

  /** `socket`, `accept` and `pipe`: a failure, or a descriptor that is not open. */
  method NewDescriptor(open: set<int>) returns (fd: int)
    ensures fd == -1 || (fd >= 0 && fd !in open)
  {
    var failed: bool := *;
    if failed {
      return -1;
    }
    ghost var unused := FreshExists(open);
    assert unused !in open;
    fd :| fd >= 0 && fd !in open;
  }

  /** Any answer at all. */
  method AnyInt() returns (n: int)
  {
    n := *;
  }

  method AnyBool() returns (b: bool)
  {
    b := *;
  }
}
