/**
 * Shared shapes used by every module of the model: an optional value, the
 * outcome of an operation that can raise, and the HTTP error a FastAPI
 * handler raises with `HTTPException(status_code, detail)`.
 */
module Common {

  datatype Option<T> = None | Some(value: T)

  datatype Result<T, E> = Ok(value: T) | Err(error: E)

  /** `HTTPException(status_code=status, detail=detail)` */
  datatype HttpError = HttpError(status: int, detail: string)

  /** A Python exception as it is captured by `str(e)` and `traceback.format_exc()`. */
  datatype Exception = Exception(message: string, traceback: string)

  /** `list(reversed(s))` */
  function Reverse<T>(s: seq<T>): (r: seq<T>)
    ensures |r| == |s|
    ensures forall i :: 0 <= i < |s| ==> r[i] == s[|s| - 1 - i]
  {
    if s == [] then [] else [s[|s| - 1]] + Reverse(s[..|s| - 1])
  }

  /** A sequence holding the elements of another from the back is its reverse. */
  lemma ReversedPointwise<T>(r: seq<T>, s: seq<T>)
    requires |r| == |s| && forall k :: 0 <= k < |s| ==> r[k] == s[|s| - 1 - k]
    ensures r == Reverse(s)
  {
  }

  /** Reversing twice gives the sequence back. */
  lemma ReverseReverse<T>(s: seq<T>)
    ensures Reverse(Reverse(s)) == s
  {
    var r := Reverse(Reverse(s));
    assert forall i :: 0 <= i < |s| ==> r[i] == s[i];
  }

  /** A subset is no larger than its superset, and one of the same size is all of it. */
  lemma {:induction false} SubsetCard<T>(a: set<T>, b: set<T>)
    requires a <= b
    ensures |a| <= |b|
    ensures |a| == |b| ==> a == b
    decreases |a|
  {
    if a != {} {
      var x :| x in a;
      SubsetCard(a - {x}, b - {x});
      assert |a - {x}| == |a| - 1 && |b - {x}| == |b| - 1;
      assert a == (a - {x}) + {x} && b == (b - {x}) + {x};
    }
  }

  lemma MulAtLeast(n: int, k: int)
    requires n > 0 && k >= 1
    ensures n * k >= n
  {
  }

  /** Euclidean division has one remainder: the one `%` gives. */
  lemma ModUnique(x: int, n: int, q: int, r: int)
    requires n > 0 && 0 <= r < n && x == n * q + r
    ensures x % n == r
  {
    var q' := x / n;
    var r' := x % n;
    assert x == n * q' + r' && 0 <= r' < n;
    if q' > q {
      MulAtLeast(n, q' - q);
    } else if q' < q {
      MulAtLeast(n, q - q');
    }
  }

  /** Adding the divisor does not change the remainder. */
  lemma ModShift(a: int, n: int)
    requires n > 0
    ensures (a + n) % n == a % n
  {
    var q := a / n;
    assert a == n * q + a % n;
    ModUnique(a + n, n, q + 1, a % n);
  }
}
