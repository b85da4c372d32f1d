/** Small shared vocabulary: an optional value, string joining and repetition. */
module Common {

  /** A value that may be absent; usable with `:-`. */
  datatype Option<+T> = None | Some(value: T) {
    predicate IsFailure() { None? }

    function PropagateFailure<U>(): Option<U>
      requires None?
    {
      None
    }

    function Extract(): T
      requires Some?
    {
      value
    }
  }

  function Min(a: int, b: int): int { if a <= b then a else b }

  function Max(a: int, b: int): int { if a >= b then a else b }

  /** `"".join(parts)`. */
  function Join(parts: seq<string>): string
  {
    if parts == [] then "" else parts[0] + Join(parts[1..])
  }

  lemma {:induction false} JoinAppend(a: seq<string>, b: seq<string>)
    ensures Join(a + b) == Join(a) + Join(b)
  {
    if a != [] {
      assert (a + b)[1..] == a[1..] + b;
      calc {
        Join(a + b);
        (a + b)[0] + Join((a + b)[1..]);
        a[0] + Join(a[1..] + b);
        { JoinAppend(a[1..], b); }
        a[0] + (Join(a[1..]) + Join(b));
        (a[0] + Join(a[1..])) + Join(b);
      }
    } else {
      assert a + b == b;
    }
  }

  /** `s * n`: `n` copies of `s` side by side. */
  function Repeat(s: string, n: nat): string
  {
    if n == 0 then "" else s + Repeat(s, n - 1)
  }

  /** Joining a sequence of identical parts repeats that part. */
  lemma {:induction false} JoinConstant(parts: seq<string>, s: string)
    requires forall i :: 0 <= i < |parts| ==> parts[i] == s
    ensures Join(parts) == Repeat(s, |parts|)
  {
    if parts != [] {
      JoinConstant(parts[1..], s);
    }
  }
}
