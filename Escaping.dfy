/**
 * The markup "escape" that every form handler of app.py applies to its text
 * inputs: each '<' is replaced by the four characters "&lt;".
 */
module Escaping {

  const LT_ENTITY: string := "&lt;"

  /** `s.replace('<', '&lt;')`. */
  function Escape(s: string): (r: string)
    ensures '<' !in r
    ensures r == [] <==> s == []
    ensures |r| >= |s|
  {
    if s == [] then []
    else (if s[0] == '<' then LT_ENTITY else [s[0]]) + Escape(s[1..])
  }

  /** Escaping leaves a string alone exactly when it holds no '<'. */
  lemma {:induction false} EscapeFixesSafe(s: string)
    ensures Escape(s) == s <==> '<' !in s
  {
    if s != [] && '<' !in s {
      assert '<' !in s[1..] by {
        forall k | 0 <= k < |s[1..]| ensures s[1..][k] != '<' { assert s[1..][k] == s[k + 1]; }
      }
      EscapeFixesSafe(s[1..]);
      assert s == [s[0]] + s[1..];
    }
  }

  /** Escaping twice is the same as escaping once. */
  lemma EscapeIdempotent(s: string)
    ensures Escape(Escape(s)) == Escape(s)
  {
    EscapeFixesSafe(Escape(s));
  }

  /** The escape works character by character: it distributes over concatenation. */
  lemma {:induction false} EscapeAppend(a: string, b: string)
    ensures Escape(a + b) == Escape(a) + Escape(b)
  {
    if a != [] {
      assert (a + b)[0] == a[0];
      assert (a + b)[1..] == a[1..] + b;
      EscapeAppend(a[1..], b);
    } else {
      assert a + b == b;
    }
  }

  /** The escape is not injective: a literal "&lt;" and a '<' become the same text. */
  lemma EscapeMergesEntity()
    ensures "<" != LT_ENTITY && Escape("<") == Escape(LT_ENTITY) == LT_ENTITY
  {
  }
}
