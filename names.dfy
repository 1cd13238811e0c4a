/** How names are compared and how a house is read off a name. */
module Names {

  /** Lexicographic order on names, character by character by code point, a
      proper prefix before its extensions: the order of Rust's `String`
      (byte-wise UTF-8 comparison agrees with code-point comparison). */
  predicate NameLe(a: string, b: string) {
    |a| == 0 || (|b| > 0 && (a[0] < b[0] || (a[0] == b[0] && NameLe(a[1..], b[1..]))))
  }

  lemma {:induction false} NameLeReflexive(a: string)
    ensures NameLe(a, a)
  {
    if |a| > 0 {
      NameLeReflexive(a[1..]);
    }
  }

  lemma {:induction false} NameLeAntisymmetric(a: string, b: string)
    requires NameLe(a, b) && NameLe(b, a)
    ensures a == b
  {
    if |a| > 0 {
      NameLeAntisymmetric(a[1..], b[1..]);
      assert a == [a[0]] + a[1..] && b == [b[0]] + b[1..];
    }
  }

  lemma {:induction false} NameLeTransitive(a: string, b: string, c: string)
    requires NameLe(a, b) && NameLe(b, c)
    ensures NameLe(a, c)
  {
    if |a| > 0 && a[0] == b[0] && b[0] == c[0] {
      NameLeTransitive(a[1..], b[1..], c[1..]);
    }
  }

  lemma {:induction false} NameLeTotal(a: string, b: string)
    ensures NameLe(a, b) || NameLe(b, a)
  {
    if |a| > 0 && |b| > 0 && a[0] == b[0] {
      NameLeTotal(a[1..], b[1..]);
    }
  }

  /** `name.rsplitn(2, ' ')` taken first: the part after the last space, or the
      whole name when it has none. It is the longest suffix free of spaces. */
  function LastToken(name: string): string {
    if |name| == 0 || name[|name| - 1] == ' ' then []
    else LastToken(name[..|name| - 1]) + [name[|name| - 1]]
  }

  /** `LastToken(name)` is a suffix of `name` without spaces, preceded by a
      space unless it is the whole name. */
  lemma {:induction false} LastTokenIsLastWord(name: string)
    ensures |LastToken(name)| <= |name| && LastToken(name) == name[|name| - |LastToken(name)|..]
    ensures ' ' !in LastToken(name)
    ensures |LastToken(name)| < |name| ==> name[|name| - |LastToken(name)| - 1] == ' '
  {
    if |name| > 0 && name[|name| - 1] != ' ' {
      var init, last := name[..|name| - 1], name[|name| - 1];
      var ti := LastToken(init);
      LastTokenIsLastWord(init);
      assert name == init + [last];
      assert LastToken(name) == ti + [last];
      assert name[|name| - |ti| - 1..] == init[|init| - |ti|..] + [last];
      if |ti| < |init| {
        assert name[|name| - |ti| - 2] == init[|init| - |ti| - 1];
      }
    }
  }

  /** A name without spaces is its own house. */
  lemma LastTokenOfSingleWord(name: string)
    requires ' ' !in name
    ensures LastToken(name) == name
  {
    LastTokenIsLastWord(name);
  }

  /** The house of "given surname" is "surname". */
  lemma LastTokenAfterSpace(given: string, surname: string)
    requires ' ' !in surname
    ensures LastToken(given + [' '] + surname) == surname
  {
    var name := given + [' '] + surname;
    var t := LastToken(name);
    LastTokenIsLastWord(name);
    forall i | |name| - |t| <= i < |name| ensures name[i] != ' ' {
      assert name[i] == t[i - (|name| - |t|)];
    }
    assert name[|given|] == ' ';
    forall i | |given| < i < |name| ensures name[i] != ' ' {
      assert name[i] == surname[i - |given| - 1];
    }
    assert name[|name| - |surname|..] == surname;
  }
}
