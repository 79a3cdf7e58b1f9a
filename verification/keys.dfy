/** Versioned keys: user bytes ascending, then timestamp descending. */
module Keys {
  import opened Bytes
  import opened Runs

  datatype Key = Key(user: Bytes, ts: u64)

  const TS_RANGE_BEGIN: u64 := 0xFFFF_FFFF_FFFF_FFFF
  const TS_RANGE_END: u64 := 0

  predicate KeyLess(a: Key, b: Key) {
    Less(a.user, b.user) || (a.user == b.user && a.ts > b.ts)
  }

  lemma UserOrderIsTotal()
    ensures TotalOrder(Less)
  {
    forall a, b ensures !Less(a, a) && (Less(a, b) || a == b || Less(b, a)) {
      LessTrichotomy(a, b);
    }
    forall a, b, c | Less(a, b) && Less(b, c) ensures Less(a, c) {
      LessTransitive(a, b, c);
    }
  }

  /** A strict total order in which, for one user key, newer versions come first. */
  lemma KeyOrderIsTotal()
    ensures TotalOrder(KeyLess)
  {
    UserOrderIsTotal();
  }
}
