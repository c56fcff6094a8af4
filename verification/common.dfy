/** Vocabulary shared by every module of the model: optional values and the
    handful of JavaScript `Math` operations the feed code relies on. */
module Common {

  /** An optional value; `None` stands for an absent, `undefined` or `NaN` field. */
  datatype Option<T> = None | Some(value: T) {

    /** The carried value, or `default` when there is none (JavaScript `x || default`). */
    function GetOr(default: T): T {
      if Some? then value else default
    }
  }

  /** `Math.max` on two numbers. */
  function MaxReal(a: real, b: real): (r: real)
    ensures r >= a && r >= b
    ensures r == a || r == b
  {
    if a >= b then a else b
  }

  /** `Math.min` on two numbers. */
  function MinReal(a: real, b: real): (r: real)
    ensures r <= a && r <= b
    ensures r == a || r == b
  {
    if a <= b then a else b
  }

  /** `Math.round`: the nearest integer, halves rounded towards +infinity. */
  function Round(x: real): (r: int)
    ensures r as real - 0.5 <= x < r as real + 0.5
  {
    (x + 0.5).Floor
  }

  /** Number of elements of `xs` that occur somewhere in `ys`
      (`xs.filter(x => ys.includes(x)).length`); duplicates in `xs` count each time. */
  function CountMembers<T(==)>(xs: seq<T>, ys: seq<T>): (n: nat)
    ensures n <= |xs|
    ensures (forall i :: 0 <= i < |xs| ==> xs[i] in ys) ==> n == |xs|
    ensures (forall i :: 0 <= i < |xs| ==> xs[i] !in ys) ==> n == 0
  {
    if |xs| == 0 then 0
    else (if xs[0] in ys then 1 else 0) + CountMembers(xs[1..], ys)
  }

  /** One more element of `xs` adds one to the count exactly when it occurs in `ys`. */
  lemma {:induction false} CountMembersPush<T>(xs: seq<T>, x: T, ys: seq<T>)
    ensures CountMembers(xs + [x], ys) == CountMembers(xs, ys) + (if x in ys then 1 else 0)
  {
    if |xs| > 0 {
      assert (xs + [x])[1..] == xs[1..] + [x];
      CountMembersPush(xs[1..], x, ys);
    }
  }

  /** One more element of `ys` adds the occurrences of that element in `xs`,
      unless it was already there. */
  lemma {:induction false} CountMembersWiden<T>(xs: seq<T>, ys: seq<T>, y: T)
    ensures CountMembers(xs, ys + [y])
            == CountMembers(xs, ys) + (if y in ys then 0 else CountMembers(xs, [y]))
  {
    if |xs| > 0 {
      CountMembersWiden(xs[1..], ys, y);
    }
  }
}
