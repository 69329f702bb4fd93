/** Motion commands exchanged between the application and the service:
    a joystick vector or a pair of tractor-style track speeds, each stamped
    with the time it was issued. Commands are ordered by timestamp only and
    compared for equality by payload only. */
module Commands {
  import opened JavaInt

  /** `Vector` is VectorCommand (x, y joystick shift); `Tractor` is
      TractorCommand (left, right speeds). The timestamp is a Java `long`
      fixed at construction: a datatype value never changes. */
  datatype Command =
    | Vector(x: Int32, y: Int32, timeMillis: int)
    | Tractor(left: Int32, right: Int32, timeMillis: int)

  /** TractorCommand.STOP: both speeds zero. */
  function TractorStop(timeMillis: int): (c: Command)
    ensures c.Tractor? && c.left == 0 && c.right == 0 && c.timeMillis == timeMillis
  {
    Tractor(0, 0, timeMillis)
  }

  /** VectorCommand.STOP: a zero shift. */
  function VectorStop(timeMillis: int): (c: Command)
    ensures c.Vector? && c.x == 0 && c.y == 0 && c.timeMillis == timeMillis
  {
    Vector(0, 0, timeMillis)
  }

  /** Command.compareTo: the sign of the timestamp difference. */
  function CompareTo(a: Command, b: Command): (r: int)
    ensures r == 0 <==> a.timeMillis == b.timeMillis
    ensures r == 1 <==> a.timeMillis > b.timeMillis
    ensures r == -1 <==> a.timeMillis < b.timeMillis
  {
    if a.timeMillis == b.timeMillis then 0
    else if a.timeMillis > b.timeMillis then 1 else -1
  }

  /** `a.equals(b)`: the same kind of command with the same payload; the
      timestamp plays no part. */
  predicate Equals(a: Command, b: Command)
  {
    match a
    case Vector(x, y, _) => b.Vector? && b.x == x && b.y == y
    case Tractor(l, r, _) => b.Tractor? && b.left == l && b.right == r
  }

  /** Equality is decided by variant and payload, never by timestamp. */
  lemma EqualsIffSamePayload(a: Command, b: Command)
    ensures Equals(a, b) <==>
      (a.Vector? && b.Vector? && a.x == b.x && a.y == b.y) ||
      (a.Tractor? && b.Tractor? && a.left == b.left && a.right == b.right)
  {
  }

  /** Restamping either side does not change the answer of `equals`. */
  lemma EqualsIgnoresTimestamp(a: Command, b: Command, t1: int, t2: int)
    ensures Equals(a.(timeMillis := t1), b.(timeMillis := t2)) == Equals(a, b)
  {
  }

  /** A vector command never equals a tractor command, in either direction. */
  lemma VariantsNeverEqual(a: Command, b: Command)
    requires a.Vector? != b.Vector?
    ensures !Equals(a, b) && !Equals(b, a)
  {
  }

  /** `equals` is an equivalence relation. */
  lemma EqualsIsEquivalence(a: Command, b: Command, c: Command)
    ensures Equals(a, a)
    ensures Equals(a, b) == Equals(b, a)
    ensures Equals(a, b) && Equals(b, c) ==> Equals(a, c)
  {
  }

  /** All STOP values of one kind are equal, whatever their timestamps. */
  lemma StopsAreEqual(t1: int, t2: int)
    ensures Equals(TractorStop(t1), TractorStop(t2))
    ensures Equals(VectorStop(t1), VectorStop(t2))
    ensures !Equals(TractorStop(t1), VectorStop(t2))
  {
  }

  /** compareTo is antisymmetric. */
  lemma CompareAntisymmetric(a: Command, b: Command)
    ensures CompareTo(a, b) == -CompareTo(b, a)
  {
  }

  /** compareTo is transitive (a total preorder) and depends on timestamps only. */
  lemma CompareTransitive(a: Command, b: Command, c: Command)
    ensures CompareTo(a, b) <= 0 && CompareTo(b, c) <= 0 ==> CompareTo(a, c) <= 0
    ensures CompareTo(a, b) < 0 && CompareTo(b, c) < 0 ==> CompareTo(a, c) < 0
  {
  }

  /** Changing kind or payload while keeping timestamps leaves the order alone. */
  lemma CompareIgnoresPayload(a: Command, b: Command, a': Command, b': Command)
    requires a'.timeMillis == a.timeMillis && b'.timeMillis == b.timeMillis
    ensures CompareTo(a', b') == CompareTo(a, b)
  {
  }
}
