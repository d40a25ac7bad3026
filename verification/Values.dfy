/** Scalar values, keys, and the order the identity map sorts by. */
module Values {

  datatype Option<+T> = None | Some(value: T)

  /** A mapped value in the canonical form the database receives; text is held by its ordinal rank. */
  datatype Val =
    | Null
    | Num(n: int)
    | Guid(bits: nat)
    | Time(ticks: int)
    | Text(rank: nat)
    | Flag(on: bool)

  type Key = seq<Val>

  predicate HasNull(key: Key) {
    Null in key
  }

  /** The zero value of the value's type, the one an unset generated key holds. */
  predicate IsZero(v: Val) {
    match v
    case Null => false
    case Num(n) => n == 0
    case Guid(bits) => bits == 0
    case Time(ticks) => ticks == 0
    case Text(rank) => rank == 0
    case Flag(on) => !on
  }

  function Sort(v: Val): nat {
    match v
    case Null => 0
    case Num(_) => 1
    case Guid(_) => 2
    case Time(_) => 3
    case Text(_) => 4
    case Flag(_) => 5
  }

  function Magnitude(v: Val): int {
    match v
    case Null => 0
    case Num(n) => n
    case Guid(bits) => bits
    case Time(ticks) => ticks
    case Text(rank) => rank
    case Flag(on) => if on then 1 else 0
  }

  function CompareVal(a: Val, b: Val): int {
    if Sort(a) != Sort(b) then Sort(a) - Sort(b) else Magnitude(a) - Magnitude(b)
  }

  /** The element-wise comparison of two keys of one type, which have one length. */
  function Compare(a: Key, b: Key): int
    requires |a| == |b|
  {
    if a == [] then 0
    else if CompareVal(a[0], b[0]) != 0 then CompareVal(a[0], b[0])
    else Compare(a[1..], b[1..])
  }

  /** A null comes first; values of one type are ordered by their magnitude, false before true. */
  lemma CompareValOrders(a: Val, b: Val)
    ensures a == Null && b != Null ==> CompareVal(a, b) < 0
    ensures a.Num? && b.Num? ==> (CompareVal(a, b) < 0 <==> a.n < b.n)
    ensures a.Guid? && b.Guid? ==> (CompareVal(a, b) < 0 <==> a.bits < b.bits)
    ensures a.Time? && b.Time? ==> (CompareVal(a, b) < 0 <==> a.ticks < b.ticks)
    ensures a.Text? && b.Text? ==> (CompareVal(a, b) < 0 <==> a.rank < b.rank)
    ensures a.Flag? && b.Flag? ==> (CompareVal(a, b) < 0 <==> !a.on && b.on)
  {
  }

  /** The first part in which two keys differ decides. */
  ghost predicate DiffersFirst(a: Key, b: Key, i: nat)
    requires |a| == |b|
  {
    i < |a| && a[..i] == b[..i] && CompareVal(a[i], b[i]) < 0
  }

  lemma {:induction false} CompareIsLexicographic(a: Key, b: Key)
    requires |a| == |b|
    ensures Compare(a, b) < 0 <==> exists i: nat :: DiffersFirst(a, b, i)
  {
    if a != [] {
      var ta, tb := a[1..], b[1..];
      CompareValIsTotalOrder(a[0], b[0], b[0]);
      CompareIsLexicographic(ta, tb);
      if i: nat :| DiffersFirst(ta, tb, i) && a[0] == b[0] {
        assert a[..i + 1] == [a[0]] + ta[..i] && b[..i + 1] == [b[0]] + tb[..i];
        assert DiffersFirst(a, b, i + 1);
      }
      if i: nat :| DiffersFirst(a, b, i) {
        if i == 0 {
          assert CompareVal(a[0], b[0]) < 0;
        } else {
          assert a[..i][0] == b[..i][0] && ta[..i - 1] == a[..i][1..] && tb[..i - 1] == b[..i][1..];
          assert DiffersFirst(ta, tb, i - 1);
        }
      }
      if CompareVal(a[0], b[0]) < 0 {
        assert DiffersFirst(a, b, 0);
      }
    }
  }

  lemma CompareValIsTotalOrder(a: Val, b: Val, c: Val)
    ensures CompareVal(a, b) == 0 <==> a == b
    ensures CompareVal(a, b) == -CompareVal(b, a)
    ensures CompareVal(a, b) < 0 && CompareVal(b, c) <= 0 ==> CompareVal(a, c) < 0
    ensures CompareVal(a, b) <= 0 && CompareVal(b, c) < 0 ==> CompareVal(a, c) < 0
  {
  }

  /** Compare calls equal exactly the equal keys, and answers symmetrically. */
  lemma {:induction false} CompareIsAntisymmetric(a: Key, b: Key)
    requires |a| == |b|
    ensures Compare(a, b) == 0 <==> a == b
    ensures Compare(a, b) == -Compare(b, a)
  {
    if a != [] {
      CompareValIsTotalOrder(a[0], b[0], b[0]);
      CompareIsAntisymmetric(a[1..], b[1..]);
      assert a == [a[0]] + a[1..] && b == [b[0]] + b[1..];
    }
  }

  lemma {:induction false} CompareIsTransitive(a: Key, b: Key, c: Key)
    requires |a| == |b| == |c|
    requires Compare(a, b) <= 0 && Compare(b, c) <= 0 && (a != b || b != c)
    ensures Compare(a, c) < 0
  {
    if a != [] {
      CompareValIsTotalOrder(a[0], b[0], c[0]);
      CompareValIsTotalOrder(b[0], c[0], a[0]);
      CompareValIsTotalOrder(a[0], c[0], b[0]);
      if a[0] == b[0] == c[0] {
        CompareIsTransitive(a[1..], b[1..], c[1..]);
      }
    }
  }
}
