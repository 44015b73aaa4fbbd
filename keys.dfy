/**
 * Group keys and their order. pandas' `groupby` sorts its groups by key: strings by
 * code point, integers numerically, and several key columns lexicographically.
 */
module Keys {

  /** The value of one or more key columns of a group. */
  datatype Key = Num(n: int) | Text(s: string) | Pair(fst: Key, snd: Key)

  /** Code-point lexicographic order on strings, as Python's `<` on `str`. */
  predicate TextLess(a: string, b: string)
    decreases |a|
  {
    b != [] && (a == [] || a[0] < b[0] || (a[0] == b[0] && TextLess(a[1..], b[1..])))
  }

  /** The order groups are sorted in; keys of different shapes never meet in one grouping. */
  predicate Less(a: Key, b: Key)
  {
    match a
    case Num(x) => !b.Num? || x < b.n
    case Text(x) => b.Pair? || (b.Text? && TextLess(x, b.s))
    case Pair(a1, a2) => b.Pair? && (Less(a1, b.fst) || (a1 == b.fst && Less(a2, b.snd)))
  }

  lemma {:induction false} TextLessIrreflexive(a: string)
    ensures !TextLess(a, a)
    decreases |a|
  {
    if a != [] {
      TextLessIrreflexive(a[1..]);
    }
  }

  lemma {:induction false} TextLessTransitive(a: string, b: string, c: string)
    requires TextLess(a, b) && TextLess(b, c)
    ensures TextLess(a, c)
    decreases |a|
  {
    if a != [] && a[0] == b[0] && b[0] == c[0] {
      TextLessTransitive(a[1..], b[1..], c[1..]);
    }
  }

  lemma {:induction false} TextLessTotal(a: string, b: string)
    ensures a == b || TextLess(a, b) || TextLess(b, a)
    decreases |a|
  {
    if a != [] && b != [] && a[0] == b[0] {
      TextLessTotal(a[1..], b[1..]);
      if a[1..] == b[1..] {
        assert a == [a[0]] + a[1..] && b == [b[0]] + b[1..];
      }
    }
  }

  lemma {:induction false} LessIrreflexive(a: Key)
    ensures !Less(a, a)
  {
    match a
    case Num(_) =>
    case Text(x) => TextLessIrreflexive(x);
    case Pair(a1, a2) => LessIrreflexive(a1); LessIrreflexive(a2);
  }

  lemma {:induction false} LessTransitive(a: Key, b: Key, c: Key)
    requires Less(a, b) && Less(b, c)
    ensures Less(a, c)
  {
    match a
    case Num(_) =>
    case Text(x) =>
      if b.Text? && c.Text? {
        TextLessTransitive(x, b.s, c.s);
      }
    case Pair(a1, a2) =>
      if Less(a1, b.fst) && Less(b.fst, c.fst) {
        LessTransitive(a1, b.fst, c.fst);
      } else if a1 == b.fst && b.fst == c.fst {
        LessTransitive(a2, b.snd, c.snd);
      }
  }

  lemma {:induction false} LessTotal(a: Key, b: Key)
    ensures a == b || Less(a, b) || Less(b, a)
  {
    match a
    case Num(_) =>
    case Text(x) =>
      if b.Text? {
        TextLessTotal(x, b.s);
      }
    case Pair(a1, a2) =>
      if b.Pair? {
        LessTotal(a1, b.fst);
        LessTotal(a2, b.snd);
      }
  }

  /** Less is a strict total order: exactly one of a < b, a == b, b < a holds. */
  lemma LessTrichotomy(a: Key, b: Key)
    ensures Less(a, b) ==> a != b && !Less(b, a)
    ensures a != b ==> Less(a, b) || Less(b, a)
  {
    LessTotal(a, b);
    LessIrreflexive(a);
    if Less(a, b) && Less(b, a) {
      LessTransitive(a, b, a);
    }
  }
}
