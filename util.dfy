/** Small wrapper datatypes shared by the interpreter modules. */
module Util {

  /** A value that may be absent (Python's `None` as a return value). */
  datatype Option<+T> = None | Some(value: T)

  /** The outcome of a computation that can raise: a value or an error. */
  datatype Result<+T, +E> = Ok(value: T) | Err(error: E)

  /** `sub` occurs in `s` as a contiguous run (Python's `sub in s` on strings). */
  predicate HasInfix(s: string, sub: string)
    decreases |s|
  {
    (|sub| <= |s| && s[..|sub|] == sub) || (|s| > 0 && HasInfix(s[1..], sub))
  }

  /** `sub` starts at position `i` of `s`. */
  predicate OccursAt(s: string, sub: string, i: int) {
    0 <= i <= |s| - |sub| && s[i..i + |sub|] == sub
  }

  /** `HasInfix` is Python's `in`: `sub` starts at some position of `s`. */
  lemma {:induction false} HasInfixMeans(s: string, sub: string)
    ensures HasInfix(s, sub) <==> exists i :: OccursAt(s, sub, i)
    decreases |s|
  {
    if HasInfix(s, sub) {
      if |sub| <= |s| && s[..|sub|] == sub {
        assert OccursAt(s, sub, 0);
      } else {
        HasInfixMeans(s[1..], sub);
        var j :| OccursAt(s[1..], sub, j);
        assert s[j + 1..j + 1 + |sub|] == s[1..][j..j + |sub|];
        assert OccursAt(s, sub, j + 1);
      }
    } else {
      forall i | OccursAt(s, sub, i)
        ensures false
      {
        HasInfixAt(s, sub, i);
      }
    }
  }

  lemma {:induction false} HasInfixAt(s: string, sub: string, i: nat)
    requires i + |sub| <= |s| && s[i..i + |sub|] == sub
    ensures HasInfix(s, sub)
    decreases i
  {
    if i > 0 {
      assert s[1..][i - 1..i - 1 + |sub|] == sub;
      HasInfixAt(s[1..], sub, i - 1);
    }
  }

  /** An occurrence in `b` is still one after anything is put in front. */
  lemma {:induction false} HasInfixAfter(a: string, b: string, sub: string)
    requires HasInfix(b, sub)
    ensures HasInfix(a + b, sub)
    decreases |a|
  {
    if a != [] {
      assert (a + b)[1..] == a[1..] + b;
      HasInfixAfter(a[1..], b, sub);
      assert HasInfix((a + b)[1..], sub);
    } else {
      assert a + b == b;
    }
  }

  /** Moving the first element of `b` to the end of `a`. */
  lemma AppendShift<T>(a: seq<T>, b: seq<T>)
    requires b != []
    ensures a + b == (a + [b[0]]) + b[1..]
  {
    assert b == [b[0]] + b[1..];
  }

  /** A non-empty sequence is its head followed by its tail. */
  lemma HeadTail<T>(s: seq<T>)
    requires s != []
    ensures [s[0]] + s[1..] == s
  {
  }

  /** The empty sequence is a unit of concatenation. */
  lemma AppendEmpty<T>(a: seq<T>)
    ensures [] + a == a && a + [] == a
  {
  }

  /** Appending after position k changes neither the prefix up to k nor
      what lies between k and the old end. */
  lemma SliceAppend<T>(s: seq<T>, k: nat, extra: seq<T>)
    requires k <= |s|
    ensures (s + extra)[..k] == s[..k] && (s + extra)[k..] == s[k..] + extra
  {
  }

  /** A sequence made of `p`, then `r`, then `c`, then `rest`: where each
      piece sits. */
  lemma Pieces<T>(p: seq<T>, r: seq<T>, c: T, rest: seq<T>)
    ensures var s := p + (r + [c] + rest);
      && |s| == |p| + |r| + 1 + |rest|
      && s[|p|..|p| + |r|] == r && s[|p| + |r|] == c
      && (p + r + [c]) + rest == s
  {
    var s := p + (r + [c] + rest);
    assert s[|p|..|p| + |r|] == r by {
      assert forall i :: 0 <= i < |r| ==> s[|p| + i] == r[i];
    }
  }

  lemma AppendAssoc<T>(a: seq<T>, b: seq<T>, c: seq<T>)
    ensures (a + b) + c == a + (b + c)
  {
  }

  /** A sequence is its prefix up to k followed by the rest. */
  lemma SplitAt<T>(s: seq<T>, k: nat)
    requires k <= |s|
    ensures s == s[..k] + s[k..]
  {
  }
}
