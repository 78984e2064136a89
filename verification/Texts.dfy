/**
 * Strings: splitting at a separator, and the lexicographic order that Python's comparison of strings is. Fields of
 * equal width, with or without a separator behind them, compare field by field, and numerals of equal width as numbers.
 */
module Texts {
  import opened Decimals

  datatype Option<T> = None | Some(value: T)

  /** `s.split(c)` for a single character. */
  function Split(s: string, c: char): (parts: seq<string>)
    ensures parts != []
  {
    if s == [] then [""]
    else
      var rest := Split(s[1..], c);
      if s[0] == c then [""] + rest else [[s[0]] + rest[0]] + rest[1..]
  }

  /** `int(s)`; None is a ValueError. */
  function ParseInt(s: string): Option<nat> {
    if s != "" && AllDigits(s) then Some(NumberOf(s)) else None
  }

  lemma {:induction false} SplitPlain(s: string, c: char)
    requires c !in s
    ensures Split(s, c) == [s]
  {
    if s != [] {
      SplitPlain(s[1..], c);
      assert [s[0]] + s[1..] == s;
    }
  }

  function Extend(parts: seq<string>, t: string): seq<string>
    requires parts != []
  {
    parts[..|parts| - 1] + [parts[|parts| - 1] + t]
  }

  lemma ExtendLater(parts: seq<string>, t: string, x: char)
    requires parts != []
    ensures [[x] + Extend(parts, t)[0]] + Extend(parts, t)[1..] == Extend([[x] + parts[0]] + parts[1..], t)
  {
    if |parts| == 1 {
      assert [x] + (parts[0] + t) == [x] + parts[0] + t;
    }
  }

  /** Appending text without the separator extends the last part. */
  lemma {:induction false} SplitExtends(s: string, t: string, c: char)
    requires c !in t
    ensures Split(s + t, c) == Extend(Split(s, c), t)
  {
    if s == [] {
      assert s + t == t;
      SplitPlain(t, c);
    } else {
      assert (s + t)[1..] == s[1..] + t;
      SplitExtends(s[1..], t, c);
      if s[0] == c {
        assert [""] + Extend(Split(s[1..], c), t) == Extend([""] + Split(s[1..], c), t);
      } else {
        ExtendLater(Split(s[1..], c), t, s[0]);
      }
    }
  }

  /** Appending a separator and plain text adds one part. */
  lemma {:induction false} SplitAdds(s: string, t: string, c: char)
    requires c !in t
    ensures Split(s + [c] + t, c) == Split(s, c) + [t]
  {
    if s == [] {
      assert s + [c] + t == [c] + t && ([c] + t)[1..] == t;
      SplitPlain(t, c);
    } else {
      assert (s + [c] + t)[1..] == s[1..] + [c] + t;
      SplitAdds(s[1..], t, c);
    }
  }

  // ----- Lexicographic order

  /** `a < b` on strings. */
  predicate Lt(a: string, b: string) {
    b != [] && (a == [] || a[0] < b[0] || (a[0] == b[0] && Lt(a[1..], b[1..])))
  }

  lemma {:induction false} LtIrreflexive(a: string)
    ensures !Lt(a, a)
  {
    if a != [] {
      LtIrreflexive(a[1..]);
    }
  }

  lemma {:induction false} LtTransitive(a: string, b: string, c: string)
    requires Lt(a, b) && Lt(b, c)
    ensures Lt(a, c)
  {
    if a != [] && a[0] == b[0] == c[0] {
      LtTransitive(a[1..], b[1..], c[1..]);
    }
  }

  lemma {:induction false} LtTotal(a: string, b: string)
    ensures Lt(a, b) || a == b || Lt(b, a)
  {
    if a != [] && b != [] && a[0] == b[0] {
      LtTotal(a[1..], b[1..]);
      assert a == [a[0]] + a[1..] && b == [b[0]] + b[1..];
    }
  }

  /** Fields of equal width compare first, the rest decides between equal ones. */
  lemma {:induction false} LtFields(a: string, b: string, x: string, y: string)
    requires |a| == |b|
    ensures Lt(a + x, b + y) <==> Lt(a, b) || (a == b && Lt(x, y))
  {
    if a == [] {
      assert a + x == x && b + y == y;
    } else {
      assert (a + x)[1..] == a[1..] + x && (b + y)[1..] == b[1..] + y;
      LtFields(a[1..], b[1..], x, y);
      assert a == [a[0]] + a[1..] && b == [b[0]] + b[1..];
    }
  }

  /** The same with a separator behind the fields. */
  lemma LtSeparated(sep: string, a: string, b: string, x: string, y: string)
    requires |a| == |b|
    ensures Lt(a + sep + x, b + sep + y) <==> Lt(a, b) || (a == b && Lt(x, y))
  {
    assert a + sep + x == a + (sep + x) && b + sep + y == b + (sep + y);
    LtFields(a, b, sep + x, sep + y);
    LtFields(sep, sep, x, y);
    LtIrreflexive(sep);
  }

  /** Numerals of equal width compare like the numbers they denote. */
  lemma {:induction false} LtNumerals(a: string, b: string)
    requires AllDigits(a) && AllDigits(b) && |a| == |b|
    ensures Lt(a, b) <==> NumberOf(a) < NumberOf(b)
    ensures NumberOf(a) == NumberOf(b) ==> a == b
  {
    if a != [] {
      var n := |a| - 1;
      LtNumerals(a[..n], b[..n]);
      assert a == a[..n] + [a[n]] && b == b[..n] + [b[n]];
      LtFields(a[..n], b[..n], [a[n]], [b[n]]);
    }
  }
}
