/** What several models share. */
module Common {
  datatype Option<+T> = None | Some(value: T)

  type Byte = b: int | 0 <= b < 256

  function One(b: bool): nat {
    if b then 1 else 0
  }

  /** A role code as the validator accepts it, trimmed and lower-cased; owner and viewer are such too. */
  predicate CodeShape(code: string) {
    && 2 <= |code| <= 41
    && 'a' <= code[0] <= 'z'
    && forall i | 0 < i < |code| :: 'a' <= code[i] <= 'z' || '0' <= code[i] <= '9' || code[i] == '_'
  }

  /** How many elements of a table satisfy a test. */
  function CountIf<T>(s: seq<T>, p: T -> bool): nat {
    if s == [] then 0 else CountIf(s[..|s| - 1], p) + (if p(s[|s| - 1]) then 1 else 0)
  }

  lemma {:induction false} CountUpdate<T>(s: seq<T>, p: T -> bool, i: nat, x: T)
    requires i < |s|
    ensures CountIf(s[i := x], p) == CountIf(s, p) - (if p(s[i]) then 1 else 0) + (if p(x) then 1 else 0)
    decreases |s|
  {
    var n := |s| - 1;
    if i < n {
      CountUpdate(s[..n], p, i, x);
      assert s[i := x][..n] == s[..n][i := x];
    } else {
      assert s[i := x][..n] == s[..n];
    }
  }

  lemma CountAppend<T>(s: seq<T>, p: T -> bool, x: T)
    ensures CountIf(s + [x], p) == CountIf(s, p) + (if p(x) then 1 else 0)
  {
    assert (s + [x])[..|s|] == s;
  }

  lemma {:induction false} CountZero<T>(s: seq<T>, p: T -> bool)
    ensures CountIf(s, p) == 0 <==> forall i | 0 <= i < |s| :: !p(s[i])
    decreases |s|
  {
    if s != [] {
      var init := s[..|s| - 1];
      CountZero(init, p);
      if CountIf(init, p) == 0 {
        forall i | 0 <= i < |init| ensures !p(s[i]) {
          assert init[i] == s[i];
        }
      } else {
        var i :| 0 <= i < |init| && p(init[i]);
        assert s[i] == init[i];
      }
    }
  }
}
