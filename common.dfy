/** Small shared vocabulary: optional values, success-or-error results, and Python's
    whitespace as `str.isspace`, `str.strip()` and `int()` see it. */
module Common {

  datatype Option<+T> = None | Some(value: T)

  /** The outcome of a stage that may raise: `Ok` carries the value, `Err` the raised error. */
  datatype Result<+T, +E> = Ok(value: T) | Err(error: E) {
    predicate IsFailure() { Err? }

    function PropagateFailure<U>(): Result<U, E>
      requires Err?
    {
      Err(error)
    }

    function Extract(): T
      requires Ok?
    {
      value
    }
  }

  /** Python's `min` on two integers. */
  function Min(a: int, b: int): int { if a <= b then a else b }

  // ---------------------------------------------------------------------------
  // Whitespace

  /** Python's `str.isspace`, which `str.strip()` removes. */
  predicate IsSpace(c: char)
  {
    c == ' ' || '\t' <= c <= '\r' || '\U{1c}' <= c <= '\U{1f}' || c == '\U{85}' || c == '\U{a0}' ||
    c == '\U{1680}' || '\U{2000}' <= c <= '\U{200a}' || c == '\U{2028}' || c == '\U{2029}' ||
    c == '\U{202f}' || c == '\U{205f}' || c == '\U{3000}'
  }

  /** The index of the first non-space character of `s` at or after `i`. */
  function Lead(s: string, i: nat): (k: nat)
    requires i <= |s|
    ensures i <= k <= |s| && (k < |s| ==> !IsSpace(s[k]))
    ensures forall m :: i <= m < k ==> IsSpace(s[m])
    decreases |s| - i
  {
    if i < |s| && IsSpace(s[i]) then Lead(s, i + 1) else i
  }

  /** The index just past the last non-space character of `s` before `j`, but not
      below `lo`. */
  function Trail(s: string, lo: nat, j: nat): (k: nat)
    requires lo <= j <= |s|
    ensures lo <= k <= j && (k > lo ==> !IsSpace(s[k - 1]))
    ensures forall m :: k <= m < j ==> IsSpace(s[m])
    decreases j
  {
    if j > lo && IsSpace(s[j - 1]) then Trail(s, lo, j - 1) else j
  }

  /** `str.strip()`: `s` without its leading and trailing whitespace. */
  function Strip(s: string): (r: string)
    ensures r == [] || (!IsSpace(r[0]) && !IsSpace(r[|r| - 1]))
  {
    var a := Lead(s, 0);
    s[a..Trail(s, a, |s|)]
  }

  predicate AllSpace(w: string) { forall k :: 0 <= k < |w| ==> IsSpace(w[k]) }

  /** Whitespace added around a string does not change what `strip()` leaves. */
  lemma StripIgnoresBlanks(w1: string, s: string, w2: string)
    requires AllSpace(w1) && AllSpace(w2)
    ensures Strip(w1 + s + w2) == Strip(s)
  {
    var x := w1 + s + w2;
    var a := Lead(s, 0);
    LeadAfterBlanks(w1, s, w2, a);
    if a < |s| {
      var b := Trail(s, a, |s|);
      TrailBeforeBlanks(w1, s, w2, a, b);
      assert Strip(x) == x[|w1| + a..|w1| + b];
      MiddleSlice(w1, s, w2, a, b);
    } else {
      assert Strip(x) == [];
    }
  }

  lemma MiddleSlice(w1: string, s: string, w2: string, a: nat, b: nat)
    requires a <= b <= |s|
    ensures (w1 + s + w2)[|w1| + a..|w1| + b] == s[a..b]
  {
    var x := w1 + s + w2;
    forall m | 0 <= m < b - a ensures x[|w1| + a..|w1| + b][m] == s[a..b][m] {
      assert x[|w1| + a + m] == s[a + m];
    }
  }

  lemma LeadAfterBlanks(w1: string, s: string, w2: string, a: nat)
    requires AllSpace(w1) && AllSpace(w2) && a == Lead(s, 0)
    ensures Lead(w1 + s + w2, 0) == if a < |s| then |w1| + a else |w1 + s + w2|
  {
    var x := w1 + s + w2;
    assert forall m :: 0 <= m < |w1| + a ==> IsSpace(x[m]) by {
      forall m | 0 <= m < |w1| + a ensures IsSpace(x[m]) {
        if m < |w1| { assert x[m] == w1[m]; } else { assert x[m] == s[m - |w1|]; }
      }
    }
    if a < |s| {
      assert x[|w1| + a] == s[a];
    } else {
      assert forall m :: |w1| + a <= m < |x| ==> IsSpace(x[m]) by {
        forall m | |w1| + a <= m < |x| ensures IsSpace(x[m]) {
          assert x[m] == w2[m - |w1| - |s|];
        }
      }
    }
  }

  lemma TrailBeforeBlanks(w1: string, s: string, w2: string, a: nat, b: nat)
    requires AllSpace(w1) && AllSpace(w2) && a == Lead(s, 0) && b == Trail(s, a, |s|)
    requires a < |s|
    ensures Trail(w1 + s + w2, |w1| + a, |w1 + s + w2|) == |w1| + b
  {
    var x := w1 + s + w2;
    assert b > a by { assert !IsSpace(s[a]); }
    assert x[|w1| + b - 1] == s[b - 1];
    assert forall m :: |w1| + b <= m < |x| ==> IsSpace(x[m]) by {
      forall m | |w1| + b <= m < |x| ensures IsSpace(x[m]) {
        if m < |w1| + |s| { assert x[m] == s[m - |w1|]; } else { assert x[m] == w2[m - |w1| - |s|]; }
      }
    }
  }

  /** `strip()` leaves a string that neither starts nor ends with whitespace unchanged. */
  lemma StripTrimmed(s: string)
    requires s == [] || (!IsSpace(s[0]) && !IsSpace(s[|s| - 1]))
    ensures Strip(s) == s
  {
    if s != [] {
      assert Lead(s, 0) == 0;
      assert Trail(s, 0, |s|) == |s|;
    }
  }
}
