// The order of addresses in query results: version 4 first, then by value.
module IpOrder {
  import opened TrackerTypes

  predicate Less(a: IpAddr, b: IpAddr) {
    if a.V4? then b.V6? || a.bits < b.bits else b.V6? && a.bits < b.bits
  }

  lemma Total(a: IpAddr, b: IpAddr)
    ensures Less(a, b) || Less(b, a) || a == b
  {
    match (a, b)
    case (V4(x), V4(y)) =>
    case (V6(x), V6(y)) =>
    case _ =>
  }

  /** Strictly increasing, so without repetition. */
  predicate Sorted(ips: seq<IpAddr>) {
    forall i, j :: 0 <= i < j < |ips| ==> Less(ips[i], ips[j])
  }

  method Least(ips: set<IpAddr>) returns (m: IpAddr)
    requires ips != {}
    ensures m in ips && forall x :: x in ips && x != m ==> Less(m, x)
  {
    m :| m in ips;
    var todo := ips - {m};
    while todo != {}
      invariant m in ips && todo <= ips - {m}
      invariant forall x :: x in ips && x !in todo && x != m ==> Less(m, x)
      decreases |todo|
    {
      var x :| x in todo;
      todo := todo - {x};
      Total(x, m);
      if Less(x, m) {
        m := x;
      }
    }
  }

  method Sort(ips: set<IpAddr>) returns (r: seq<IpAddr>)
    ensures Sorted(r) && forall ip :: ip in r <==> ip in ips
    ensures forall i, j :: 0 <= i < j < |r| ==>
      (r[i].V4? && r[j].V6?) || (r[i].V4? == r[j].V4? && r[i].bits < r[j].bits)
  {
    r := [];
    var todo := ips;
    while todo != {}
      invariant todo <= ips && Sorted(r)
      invariant forall ip :: ip in r <==> ip in ips - todo
      invariant forall i, y :: 0 <= i < |r| && y in todo ==> Less(r[i], y)
      decreases |todo|
    {
      var m := Least(todo);
      r := r + [m];
      todo := todo - {m};
    }
  }
}
