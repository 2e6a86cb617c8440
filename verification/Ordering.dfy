/** Strict total orders, and the lexicographic order they give sequences. */
module Ordering {

  ghost predicate StrictTotal<T(!new)>(lt: (T, T) -> bool) {
    && (forall a :: !lt(a, a))
    && (forall a, b, c :: lt(a, b) && lt(b, c) ==> lt(a, c))
    && (forall a, b :: a == b || lt(a, b) || lt(b, a))
  }

  ghost predicate Least<T(!new)>(lt: (T, T) -> bool, least: T) {
    forall a :: a == least || lt(least, a)
  }

  predicate LexLess<T(==)>(lt: (T, T) -> bool, a: seq<T>, b: seq<T>) {
    if a == [] || b == [] then a == [] && b != []
    else lt(a[0], b[0]) || (a[0] == b[0] && LexLess(lt, a[1..], b[1..]))
  }

  function Lex<T(==)>(lt: (T, T) -> bool): (seq<T>, seq<T>) -> bool {
    (a, b) => LexLess(lt, a, b)
  }

  predicate CharLess(a: char, b: char) { a < b }

  /** The order of strings: the empty one is the least. */
  const StringLess: (string, string) -> bool := Lex(CharLess)

  /** The order of row values: column by column, a prefix before what extends it. */
  const RowValueLess: (seq<string>, seq<string>) -> bool := Lex(StringLess)

  lemma {:induction false} LexIrreflexive<T(!new)>(lt: (T, T) -> bool, a: seq<T>)
    requires StrictTotal(lt)
    ensures !LexLess(lt, a, a)
  {
    if a != [] {
      LexIrreflexive(lt, a[1..]);
    }
  }

  lemma {:induction false} LexTransitive<T(!new)>(lt: (T, T) -> bool, a: seq<T>, b: seq<T>, c: seq<T>)
    requires StrictTotal(lt) && LexLess(lt, a, b) && LexLess(lt, b, c)
    ensures LexLess(lt, a, c)
  {
    if a != [] && a[0] == b[0] && b[0] == c[0] {
      LexTransitive(lt, a[1..], b[1..], c[1..]);
    }
  }

  lemma {:induction false} LexTotal<T(!new)>(lt: (T, T) -> bool, a: seq<T>, b: seq<T>)
    requires StrictTotal(lt)
    ensures a == b || LexLess(lt, a, b) || LexLess(lt, b, a)
  {
    if a != [] && b != [] && a[0] == b[0] {
      LexTotal(lt, a[1..], b[1..]);
      assert a == [a[0]] + a[1..] && b == [b[0]] + b[1..];
    }
  }

  /** The first place where two sequences differ decides, and a proper prefix comes first. */
  lemma {:induction false} LexDecides<T(!new)>(lt: (T, T) -> bool, common: seq<T>, x: T, a: seq<T>, y: T, b: seq<T>)
    requires StrictTotal(lt) && x != y
    ensures LexLess(lt, common + [x] + a, common + [y] + b) <==> lt(x, y)
    ensures LexLess(lt, common, common + [x] + a)
  {
    if common == [] {
      assert common + [x] + a == [x] + a && common + [y] + b == [y] + b;
    } else {
      LexDecides(lt, common[1..], x, a, y, b);
      assert (common + [x] + a)[1..] == common[1..] + [x] + a;
      assert (common + [y] + b)[1..] == common[1..] + [y] + b;
    }
  }

  /** Sequences over a strict total order are strictly totally ordered, the empty one first. */
  lemma {:induction false} LexStrictTotal<T(!new)>(lt: (T, T) -> bool)
    requires StrictTotal(lt)
    ensures StrictTotal(Lex(lt)) && Least(Lex(lt), [])
  {
    forall a: seq<T> ensures !Lex(lt)(a, a) {
      LexIrreflexive(lt, a);
    }
    forall a, b, c: seq<T> | Lex(lt)(a, b) && Lex(lt)(b, c) ensures Lex(lt)(a, c) {
      LexTransitive(lt, a, b, c);
    }
    forall a, b: seq<T> ensures a == b || Lex(lt)(a, b) || Lex(lt)(b, a) {
      LexTotal(lt, a, b);
    }
  }

  /** Both cursors, a string and a row value of strings, start below every key. */
  lemma {:induction false} CursorsOrdered()
    ensures StrictTotal(StringLess) && Least(StringLess, "")
    ensures StrictTotal(RowValueLess) && Least(RowValueLess, [])
  {
    assert StrictTotal(CharLess);
    LexStrictTotal(CharLess);
    LexStrictTotal(StringLess);
  }
}
